# The trade engine of the coordinator, verified

The coordinator of this peer-to-peer exchange keeps three SQLite tables: pending maker requests, the
orderbook, and the taken offers. HTTP handlers, a confirmation monitor, a bond monitor and a dispute
command line all work on them at the same time, and every handler is a sequence of separate SQL
statements with no transaction around them. The traders only poll. This project models that engine,
the sums of the escrow and payout transactions, the batch bond check with its mempool cache, and the
traders' coin selection with its wire form, and proves what they keep in every interleaving.

`dafny verify dfyconfig.toml` checks the whole project.

## How the model is built

- `Types`, `Statements`: the rows of the tables, and what each SQL statement does to one row. NULL is
  `None`; `false` is stored as NULL.
- `Database.CoordinatorDb`: the three tables as a class, one method for each database operation.
- `Handlers`, `Offers`, `Confirmations`, `Bonds`, `EscrowCli`: the handlers, the monitor passes and the
  dispute command line as imperative code on these tables. What they write and answer is stated on
  the columns.
- `Trade`: one taken offer as a transition system. Any number of requests, monitor passes and
  verdicts are tasks with program counters, and one step is one SQL statement or one outside call.
  Finished tasks stay in the state and a log records events. `TradeCausality`, `TradeLock`,
  `TradeSlots` and `TradeDispute` prove properties of every run, by the induction over runs of
  `Runs`. `TradeDrive` builds continuations of any state step by step; with them `TradeAgreement`,
  `TradeAssembly`, `TradeSignatures`, `TradeKeyspends` and `TradeVerdict` say exactly when agreement,
  exclusive assembly, payout, a single keyspend and the report of a verdict are still possible, and
  `TradeWitness` shows runs in which intended properties fail. `Handlers` proves that each handler,
  undisturbed, does exactly what its task does alone.
- `Lifecycle`: the way of every offer through the three tables, again one SELECT, DELETE or INSERT at
  a time, interleaved with the bond monitor and with all trades. `MovesAlone` ties it to the
  handlers and to `Trade`, `Overlaps` says when and how two moves of one row collide,
  `Replacements` when a maker's newer request is lost, and `Submissions` that every row carries what
  its own traders handed in.
- `EscrowAmounts`, `CsvInputs`, `InputSelection`, `MempoolCache`, `SpendingRights`: amounts, input
  lists, coin selection, the mempool cache and the escrow output.

## What is assumed

- One SQL statement is atomic. A statement that fails for a reason of the database engine is a task
  that takes no more steps.
- Offer ids drawn for new offers are fresh. The two robohashes of a trade differ where a lemma says so.
- `Trade` follows one row from its INSERT to its deletion. That the row is not replaced in between is
  an assumption there; `Overlaps.TakenTwiceIffReadTogether` and `Overlaps.OverlapReplacesTrade` show
  exactly when it is violated.
- The node answers `testmempoolaccept` with one result for each transaction, in order, and judges
  each by itself (`Bonds.AnswersEach`). A txid determines its transaction, and the byte codec of
  inputs round trips. Each is a hypothesis of the lemmas that need it.
- Service fees are computed over the reals, except in `EscrowAmounts.RoundedFeesAreClose` and
  `InputSelection.MakerChangeSurvivesRounding`, which hold however each operation rounds.
- An unsigned operation that leaves its range is an error, as in a build with overflow checks. The
  sums of the inputs that traders hand in are checked against 64 bits; a wallet, and what a bond
  transaction spends, is worth no more than all coins there are.
- A robohash is one value, wherever it is stored or compared; its two spellings as bytes and as hex
  text are not told apart.
- A NULL integer column that is read as a plain integer reads as 0. Both signatures without a payout
  PSBT are a decoding error, not a missing pair.

## What turns out otherwise than intended

- The `processing` flag does not exclude: each poller that is turned away flips it too, so with n
  turned away n + 1 can assemble at once (`TradeWitness.LockBoundIsTight`). And a poller reads the
  payout column before it takes the lock, so two of them can assemble one after the other without
  anybody being turned away (`TradeWitness.AnswersCanDisagreeInTurn`). Either way the two traders can
  be handed different payout PSBTs, and two different keyspends can be broadcast
  (`TradeKeyspends.TwoKeyspendsCanBeSent`). `TradeAssembly.TwoAssemblingIff`,
  `TradeAgreement.AgreementIffSettled` and `TradeKeyspends.KeyspendsAgreeIffSettled` give the exact
  conditions under which each of the three can still happen.
- Both partial signatures may arrive before any payout PSBT is stored. They are kept, every later one
  is refused, and the trade is never paid out (`TradeSignatures.EarlySignaturesStrand`). A
  trade can still be paid out exactly unless it is stranded: both signatures are stored and every
  submission that could read them is done (`TradeSignatures.PaidOutIffNotStranded`).
- Storing a verdict closes the dispute, and a poll that starts afterwards answers that nothing is
  ready (`TradeDispute.VerdictStaysUnreported`). Without a new request for escrow the verdict is told
  exactly to polls that had read the open dispute before (`TradeVerdict.VerdictToldIff`); both cases
  occur (`TradeVerdict.LatePollIsTold`, `TradeVerdict.VerdictCanStayUntold`).
- Listing an offer overwrites the required input figure with the bond amount
  (`taptrade-cli-demo/coordinator/src/database/mod.rs:235`, while `db_tests.rs:160` beside it expects
  the separate figure). The taker's client then selects too little for the escrow unless its user
  enters a larger trade value (`Offers.EscrowFundedIff`).
- "Sell" is stored as NULL, so no query ever shows a sell offer, and a trade of one would return both
  stakes (`Lifecycle.ShownOffersSettle`, `EscrowAmounts.OtherOrdersReturnStakes`). The description of
  the payout in the repository's `README.md:111-115` holds for buy orders.
- With an odd fee the payout outputs and the fee ask for one satoshi more than the escrow holds
  (`EscrowAmounts.PayoutConserves`), and the smallest accepted offer cannot be paid out at the
  fallback fee rate (`EscrowAmounts.SmallestOfferCannotBePaidOut`).
- A trader that submits twice at the same time can overwrite its own slot
  (`TradeWitness.SlotIsOverwritten`, and exactly then: `TradeSlots.FilledSlotChangesIff`); two takers
  at the same time can both be told that they took an offer, and the second replaces the first
  (`Overlaps.TakerIsReplaced`); a maker that submits twice at the same time lists one request under
  two ids (`Overlaps.RequestIsListedTwice`).
- When two offers are backed by one bond transaction, a punishing pass removes at most one of them: it
  leaves exactly the passing offers unless two offers of one bond both fail (`Bonds.MonitorPass`,
  `Bonds.PassingLeftIff`).
- An activation deletes by maker, so a request that replaced the one it has read is deleted unread and
  never activated (`Replacements.ReplacementIsLost`, `Replacements.RequestLostIff`).

## Model

| member | source | states |
|---|---|---|
| `TradeCausality.DeletionComesLast` | taptrade-cli-demo/coordinator/src/coordinator/mod.rs:269-442 | In every run a completed row is deleted only after that keyspend was broadcast, after both its signatures and its PSBT were stored, after one read saw both traders happy, after the escrow was marked confirmed and its txid reported with more than 3 confirmations |
| `TradeCausality.ReachableCausal` | taptrade-cli-demo/coordinator/src/coordinator/coordinator_utils.rs:222-246 | Every event of every run has its causes before it, and every column value and program counter is explained by an event |
| `TradeCausality.HappinessFollowsConfirmation` | taptrade-cli-demo/coordinator/src/coordinator/mod.rs:269-281 | Any recorded happiness follows the confirmation mark, which follows a report of more than 3 confirmations |
| `TradeCausality.PayoutFollowsHappiness` | taptrade-cli-demo/coordinator/src/coordinator/mod.rs:308-345 | A payout PSBT is stored only after one read saw both traders happy, although happiness can be withdrawn later |
| `TradeCausality.DeletionFollowsBroadcast` | taptrade-cli-demo/coordinator/src/coordinator/mod.rs:411-441 | The deletion follows the broadcast of the same two signatures and PSBT, which were stored before it |
| `TradeCausality.GoneRowWasPaidOut` | taptrade-cli-demo/coordinator/src/coordinator/mod.rs:427-440 | A row that is gone was paid out: some keyspend was broadcast and then deleted it |
| `TradeCausality.ConfirmationSound` | taptrade-cli-demo/coordinator/src/coordinator/tx_confirmation_monitoring.rs:49-57 | A row marked confirmed had its own txid reported with more than 3 confirmations |
| `TradeCausality.ConfirmationSticky` | taptrade-cli-demo/coordinator/src/database/mod.rs:545-555 | In every run a row once marked confirmed stays so as long as it exists |
| `TradeLock.LockBound` | taptrade-cli-demo/coordinator/src/coordinator/mod.rs:322-351 | For any number of pollers and any interleaving, `processing` is the parity of pollers inside plus pollers turned away, and those inside exceed those turned away by at most one; so assembly is exclusive while nobody has been turned away |
| `TradeWitness.LockBoundIsTight` | taptrade-cli-demo/coordinator/src/database/mod.rs:983-1001 | The bound is exact: for every n a run has n pollers turned away and n + 1 assembling, none of them failed |
| `TradeAssembly.TwoAssemblingIff` | taptrade-cli-demo/coordinator/src/coordinator/mod.rs:322-351 | In every reachable state: some continuation has two pollers assembling at once iff no PSBT is stored yet, or the polls that found none and those that will toggle back suffice, given the flag, for two admissions |
| `TradeAssembly.ReachTwo` | taptrade-cli-demo/coordinator/src/database/mod.rs:983-1001 | Where they suffice the continuation is built, turn by turn |
| `TradeLock.AnswersWereAssembled` | taptrade-cli-demo/coordinator/src/coordinator/mod.rs:322-356 | Every payout PSBT handed out or stored was assembled by an admitted poller |
| `TradeLock.AnswersAgree` | taptrade-cli-demo/coordinator/src/coordinator/mod.rs:322-356 | With one admitted poller all answers ever given carry the same PSBT, which is the stored one |
| `TradeLock.StoredPsbtFixed` | taptrade-cli-demo/coordinator/src/database/mod.rs:863-874 | In every run with one admitted poller the stored PSBT never changes once set |
| `TradeWitness.AnswersCanDisagree` | taptrade-cli-demo/coordinator/src/coordinator/mod.rs:329-351 | After one poller was turned away a run hands any two given PSBTs to two pollers |
| `TradeWitness.AnswersCanDisagreeInTurn` | taptrade-cli-demo/coordinator/src/coordinator/mod.rs:322-351 | So does a run in which nobody is turned away: both read the empty column, then each is admitted after the other toggled back, and the stored PSBT is overwritten |
| `TradeAgreement.AgreementIffSettled` | taptrade-cli-demo/coordinator/src/coordinator/mod.rs:313-356 | In every reachable state: no continuation ever hands out different PSBTs iff one is stored, nobody is assembling, all PSBTs held or given are that one, and no poll that found none can still be admitted; or the row is gone and all given ones agree |
| `TradeAgreement.StoredPsbtStaysIffSettled` | taptrade-cli-demo/coordinator/src/database/mod.rs:863-874 | Every continuation keeps the stored PSBT and answers nothing else iff the state is settled on it |
| `TradeAgreement.SettledForGood` | taptrade-cli-demo/coordinator/src/coordinator/mod.rs:322-356 | A settled state stays settled, and all its answers agree |
| `TradeSlots.NoLostHandOff` | taptrade-cli-demo/coordinator/src/coordinator/mod.rs:244-263 | When a submission of the maker and one of the taker have both written and then read, one of them saw both values, or one of them found the row gone, and then the payout had been broadcast |
| `TradeSlots.PairInOrder` | taptrade-cli-demo/coordinator/src/database/mod.rs:664-682 | A pair that goes on to a broadcast has a value the maker handed in first and one the taker handed in second |
| `TradeSlots.SlotHoldsOwnTradersValue` | taptrade-cli-demo/coordinator/src/database/mod.rs:608-661 | Each of the four slots only ever holds what its own trader handed in |
| `TradeSlots.WrittenOnce` | taptrade-cli-demo/coordinator/src/database/mod.rs:877-929 | In a run without a race between check and update, a filled slot keeps its value as long as the row exists |
| `TradeSlots.OneInFlightMeansNoRace` | taptrade-cli-demo/coordinator/src/database/mod.rs:608-661 | One submission in flight per trader rules that race out |
| `TradeSlots.RaceOverwrites` | taptrade-cli-demo/coordinator/src/database/mod.rs:608-661 | Wherever the race occurs on an existing row, two more steps fill the slot and overwrite it |
| `TradeWitness.SlotIsOverwritten` | taptrade-cli-demo/coordinator/src/database/mod.rs:608-661 | The race occurs, for both kinds of slot and both traders: some run fills the slot with one given value and overwrites it with another |
| `TradeSlots.FilledSlotChangesIff` | taptrade-cli-demo/coordinator/src/database/mod.rs:608-661 | A filled slot can still change iff a submission that saw it empty has not written yet and brings another value |
| `TradeSignatures.BothSignaturesReachBroadcast` | taptrade-cli-demo/coordinator/src/database/mod.rs:932-968 | Once a trader was handed a payout PSBT, whoever reads both signatures goes on to broadcast exactly the stored signatures and PSBT, if they decode |
| `TradeSignatures.StrandedForGood` | taptrade-cli-demo/coordinator/src/coordinator/mod.rs:402-440 | When both signatures are stored and no submission can still read them, no later step of any run broadcasts or deletes |
| `TradeSignatures.EarlySignaturesStrand` | taptrade-cli-demo/coordinator/src/coordinator/mod.rs:395-418 | Two signatures sent before any payout PSBT is stored reach that state |
| `TradeSignatures.PaidOutIffNotStranded` | taptrade-cli-demo/coordinator/src/coordinator/mod.rs:395-442 | In every reachable state of two different traders: some continuation broadcasts a keyspend and deletes the row iff the trade is not stranded |
| `TradeSignatures.SomeRunPaysOut` | taptrade-cli-demo/coordinator/src/coordinator/mod.rs:427-440 | Every trade of two different traders has a run that ends in its payout and deletion |
| `TradeKeyspends.KeyspendsAgreeIffSettled` | taptrade-cli-demo/coordinator/src/coordinator/mod.rs:402-440 | In every reachable state: no continuation broadcasts two different keyspends iff at most one is committed and, while there is a row, both signatures are there and either nobody is left to read, or one reader is and none is committed, or every reader is bound to read that one and the payout PSBT is fixed |
| `TradeKeyspends.TwoKeyspendsCanBeSent` | taptrade-cli-demo/coordinator/src/database/mod.rs:932-968 | A new trade has a run that broadcasts two different keyspends |
| `TradeKeyspends.SettledSendsOne` | taptrade-cli-demo/coordinator/src/database/mod.rs:932-968 | From a settled state every continuation broadcasts one keyspend at most |
| `TradeDispute.DisputeStatesClassified` | taptrade-cli-demo/coordinator/src/database/mod.rs:49-55 | In every reachable state each happiness column is NULL or 1, the dispute flag 0 or 1, and the winner NULL or one of the two traders |
| `TradeDispute.PollClassified` | taptrade-cli-demo/coordinator/src/coordinator/mod.rs:308-362 | A poll takes the payout branch iff both are 1, the dispute branch iff a dispute is open and not both are 1, and answers not ready otherwise |
| `TradeDispute.WithdrawalBlocksPayout` | taptrade-cli-demo/coordinator/src/database/mod.rs:695-723 | In every run, from the step in which a request for escrow takes a trader's happiness back until that trader consents again, its column is NULL and no poll that starts takes the payout branch |
| `TradeDispute.VerdictClosesDispute` | taptrade-cli-demo/coordinator/src/coordinator/escrow_cli.rs:41-60 | The step that stores a verdict names one of the two traders and closes the dispute |
| `EscrowCli.EscrowCliPass` | taptrade-cli-demo/coordinator/src/coordinator/escrow_cli.rs:34-64 | One turn of the loop decides and closes every open dispute for the trader the operator names, and changes no other row |
| `TradeDispute.DisputeReopensOnlyOnRequest` | taptrade-cli-demo/coordinator/src/database/mod.rs:695-723 | From a state without an open dispute one is open later only if a trader asked for escrow in between |
| `TradeDispute.VerdictStaysUnreported` | taptrade-cli-demo/coordinator/src/database/mod.rs:1033-1040 | After a verdict, without a new escrow request and without mutual consent, every poll that starts answers that nothing is ready |
| `TradeVerdict.VerdictToldIff` | taptrade-cli-demo/coordinator/src/coordinator/mod.rs:308-390 | In every reachable state with a stored verdict and no open dispute: without a new escrow request some continuation tells a trader the verdict iff a poll already stands in the dispute branch |
| `TradeVerdict.LatePollIsTold` | taptrade-cli-demo/coordinator/src/coordinator/mod.rs:369-391 | It occurs, for either winner and either trader: a poll that read the dispute before the verdict is told it afterwards |
| `TradeVerdict.VerdictCanStayUntold` | taptrade-cli-demo/coordinator/src/coordinator/escrow_cli.rs:41-60 | So does the other case: a verdict is reached that nobody will be told unless a trader asks again |
| `Handlers.CheckOfferAndConfirmation` | taptrade-cli-demo/coordinator/src/coordinator/coordinator_utils.rs:222-246 | The exact answer: not found for anyone but the two traders, not confirmed unless the flag is 1 |
| `Handlers.HandleSignedEscrowPsbt` | taptrade-cli-demo/coordinator/src/coordinator/mod.rs:223-266 | Who is refused and why, which column is written, which pair is handed to the broadcast in which order, and what is answered; and that this is its task run alone in the transition system |
| `Handlers.HandleObligationConfirmation` | taptrade-cli-demo/coordinator/src/coordinator/mod.rs:269-281 | Writes 1 into the own happiness column of a trader of a confirmed row and nothing else; the errors otherwise; and that this is its task run alone |
| `Handlers.InitiateEscrow` | taptrade-cli-demo/coordinator/src/coordinator/mod.rs:285-298 | Writes NULL into the own happiness column and opens a dispute, no other column changes; the errors otherwise; and that this is its task run alone |
| `Handlers.HandleFinalPayout` | taptrade-cli-demo/coordinator/src/coordinator/mod.rs:302-391 | Every answer from the row and the outcomes of the calls: stored or newly assembled PSBT, not ready, deciding iff there is no winner, lost iff another one won, the unimplemented branch for the winner; and that this is its task run alone |
| `Handlers.HandlePayoutSignature` | taptrade-cli-demo/coordinator/src/coordinator/mod.rs:395-442 | Who is refused and why, which column is written, exactly which keyspend is broadcast, and when the row is deleted; and that this is its task run alone |
| `Handlers.RunAlone` | taptrade-cli-demo/coordinator/src/coordinator/mod.rs:223-442 | Every task that runs alone finishes |
| `Handlers.HappyAlone` | taptrade-cli-demo/coordinator/src/coordinator/mod.rs:269-298 | Where an undisturbed happiness or escrow request ends, case by case |
| `Handlers.PsbtUntilWritten` | taptrade-cli-demo/coordinator/src/coordinator/mod.rs:230-248 | An undisturbed PSBT submission is refused for a non-member and for a filled slot, and fills its slot otherwise |
| `Handlers.SigUntilWritten` | taptrade-cli-demo/coordinator/src/coordinator/mod.rs:400-409 | The same for a signature, with the confirmation check |
| `Lifecycle.NeverInBothTables` | taptrade-cli-demo/coordinator/src/database/mod.rs:387-442 | At every statement boundary of every run no offer id is in the orderbook and in the taken table, and every taken offer was listed |
| `Lifecycle.NeverBackInOrderbook` | taptrade-cli-demo/coordinator/src/database/mod.rs:351-384 | In every run an id that left the orderbook never returns, and what was listed under it never changes |
| `Lifecycle.ColumnsCarried` | taptrade-cli-demo/coordinator/src/database/mod.rs:245-287 | A taken row has the listed row's columns and the escrow computed from it, and the listed row shows the bond amount as its required input |
| `Lifecycle.ListingOverwritesRequiredInput` | taptrade-cli-demo/coordinator/src/database/mod.rs:235 | A listed row equals its request except for the required input, which is short of the service fee and both buffers |
| `Submissions.SubmissionsCarried` | taptrade-cli-demo/coordinator/src/database/mod.rs:387-442 | In every reachable state a taken row carries what its maker handed in to list the offer and its taker to take it, column by column, each with its own trader |
| `Submissions.ListingCarried` | taptrade-cli-demo/coordinator/src/database/mod.rs:245-287 | In every reachable state a listed row carries its request and what its maker handed in, column by column |
| `Submissions.BondsAreRatios` | taptrade-cli-demo/coordinator/src/coordinator/mod.rs:19 | In every reachable state the bond of each pending, listed and taken row is its ratio of its amount, rounded down |
| `Lifecycle.TakenOfferSettlesIff` | taptrade-cli-demo/coordinator/src/database/mod.rs:835-845 | A taken offer pays the buyer amount minus half the fee above its stake and the seller as much below, iff it is a buy order and the bond covers half the fee |
| `Lifecycle.ShownOffersSettle` | taptrade-cli-demo/coordinator/src/database/mod.rs:290-328 | In every reachable state the orderbook query matches only buy orders in the range, and a trade of a shown offer settles iff its bond covers half the fee |
| `Lifecycle.TakenTwiceIffOverlap` | taptrade-cli-demo/coordinator/src/database/mod.rs:351-384 | Two takers take one offer iff one read its row while the other stood between SELECT and DELETE |
| `Lifecycle.ActivatedTwiceIffOverlap` | taptrade-cli-demo/coordinator/src/database/mod.rs:211-242 | Two submissions activate one pending request iff one read it while the other stood between SELECT and DELETE |
| `Overlaps.TakenTwiceIffReadTogether` | taptrade-cli-demo/coordinator/src/database/mod.rs:351-384 | Over every run: two takers take one offer iff in some state of the run two of them stood between SELECT and DELETE of its row; so at most one reader at a time means taken at most once |
| `Overlaps.ActivatedTwiceIffReadTogether` | taptrade-cli-demo/coordinator/src/database/mod.rs:211-242 | The same for the activations of one request |
| `Overlaps.OverlapReplacesTrade` | taptrade-cli-demo/coordinator/src/database/mod.rs:387-442 | From every state with two such takers a continuation inserts both trades, the second in the place of the first |
| `Overlaps.OverlapListsTwice` | taptrade-cli-demo/coordinator/src/database/mod.rs:245-287 | From every reachable state with two such activations a continuation lists the same request under two different ids |
| `Overlaps.TakerIsReplaced` | taptrade-cli-demo/coordinator/src/coordinator/mod.rs:111-156 | Both happens: any accepted order has a run in which its first taker is replaced by a second one |
| `Overlaps.RequestIsListedTwice` | taptrade-cli-demo/coordinator/src/coordinator/mod.rs:48-88 | Any accepted order has a run that ends with exactly two orderbook rows of it, under two ids |
| `Replacements.RequestLostIff` | taptrade-cli-demo/coordinator/src/database/mod.rs:211-242 | A pending request that nobody has read is lost in one step, for good, iff the maker replaces it or an activation that has read an older one deletes it |
| `Replacements.NeverActivatedIff` | taptrade-cli-demo/coordinator/src/database/mod.rs:170-192 | A request can still be activated, or has been, iff it is pending or has been read |
| `Replacements.ReplacementIsLost` | taptrade-cli-demo/coordinator/src/coordinator/mod.rs:48-88 | It occurs: the newer request is deleted unread and the older one listed |
| `MovesAlone.TakingAlone` | taptrade-cli-demo/coordinator/src/coordinator/mod.rs:111-156 | Taking an offer undisturbed is a continuation in the lifecycle that ends in the tables the handler leaves |
| `MovesAlone.ActivationAlone` | taptrade-cli-demo/coordinator/src/coordinator/mod.rs:48-88 | Activating a request undisturbed is a continuation that ends in the tables the handler leaves |
| `MovesAlone.TradeStepsAreTrades` | taptrade-cli-demo/coordinator/src/database/mod.rs:608-1040 | Every statement of a trade is a step the lifecycle allows: it keeps the terms or deletes the row |
| `Offers.ProcessOrder` | taptrade-cli-demo/coordinator/src/coordinator/mod.rs:12-44 | The bond answered and stored is the ratio of the amount in percent, rounded down, the required input adds the floor of the service fee and 10000, and the request is remembered column by column; nothing happens without an address from the wallet |
| `Offers.HandleMakerBond` | taptrade-cli-demo/coordinator/src/coordinator/mod.rs:48-88 | Lists the offer, column by column, iff the request is pending, the bond admissible against it and an address can be drawn, with the right error otherwise and no table changed |
| `Offers.HandleTakerBond` | taptrade-cli-demo/coordinator/src/coordinator/mod.rs:111-156 | Takes the offer iff it is listed, the bond admissible, both traders fund the escrow and the wallet can build it; the taken row has the columns of the offer and of the taker; otherwise no table changes; inputs are conserved into escrow, fees, changes and transaction fee |
| `Offers.MonitoringMatchesAdmission` | taptrade-cli-demo/coordinator/src/database/mod.rs:484-510 | The monitor checks the bond of a listed offer against exactly what it was admitted with |
| `Offers.CreateEscrowPsbt` | taptrade-cli-demo/coordinator/src/wallet/escrow_psbt.rs:120-215 | Succeeds iff both input lists parse and cover what is due, keys and addresses parse and the builder finishes; panics iff a sum overflows or a side brings something but too little; conserves the worth of the inputs |
| `Offers.MakerFunds` | taptrade-cli-demo/trader/src/trading/maker_utils.rs:23-30 | A maker that selects for the required figure always covers its side, through wire form, parser and both fee formulas |
| `Offers.EscrowFundedIff` | taptrade-cli-demo/trader/src/trading/taker_utils.rs:20-31 | Every taker that selects for the advertised figure brings enough for it iff its own trade value is at least amount + fee + 5000 |
| `EscrowAmounts.EscrowTxOutputs` | taptrade-cli-demo/coordinator/src/wallet/escrow_psbt.rs:160-193 | Defined iff both sums are positive, fit into 64 bits and cover what is due; inputs = escrow + both fees + both changes + 10000 |
| `EscrowAmounts.InputSum` | taptrade-cli-demo/coordinator/src/wallet/escrow_psbt.rs:16-27 | The sum of the inputs that carry a witness output; an error iff it is zero, an overflow iff it does not fit into 64 bits |
| `EscrowAmounts.FeeFormulasAgree` | taptrade-cli-demo/coordinator/src/database/mod.rs:763-790 | Without rounding the two service fee formulas give the same fee |
| `EscrowAmounts.RoundedFeesAreClose` | taptrade-cli-demo/coordinator/src/database/mod.rs:763-790 | However each operation rounds, within 1e-12, the two service fees of an accepted amount differ by at most one satoshi, from each other and from the exact fee |
| `EscrowAmounts.PayoutDefined` | taptrade-cli-demo/coordinator/src/wallet/payout_tx.rs:67-77 | The payout subtractions are defined iff ratio * amount >= 100 * floor(fee / 2) |
| `EscrowAmounts.BondAmount` | taptrade-cli-demo/coordinator/src/coordinator/mod.rs:19 | The bond is the ratio of the amount in percent, rounded down |
| `EscrowAmounts.FeeIsFloor` | taptrade-cli-demo/coordinator/src/coordinator/mod.rs:20-22 | The service fee is the fee rate of the amount in percent, rounded down |
| `EscrowAmounts.SmallestOfferCannotBePaidOut` | taptrade-cli-demo/coordinator/src/wallet/payout_tx.rs:9-22 | At the fallback fee rate the smallest accepted offer has no payout |
| `EscrowAmounts.PayoutConserves` | taptrade-cli-demo/coordinator/src/wallet/payout_tx.rs:52-82 | Payouts + fee = escrow + fee mod 2, so the payout balances iff the fee is even |
| `EscrowAmounts.BuyOrderSettles` | taptrade-cli-demo/coordinator/src/database/mod.rs:835-845 | The maker of a buy order gains the amount and the taker gives it, each less half the fee |
| `EscrowAmounts.OtherOrdersReturnStakes` | taptrade-cli-demo/coordinator/src/database/mod.rs:840-845 | Any other order only returns the stakes |
| `EscrowAmounts.NothingOverflows` | taptrade-cli-demo/coordinator/src/communication/api.rs:80-84 | No sum overflows a signed 64 bit column in the validated ranges |
| `InputSelection.GetEscrowPsbtInputs` | taptrade-cli-demo/trader/src/wallet/mod.rs:115-143 | The printed inputs are the shortest non-empty prefix of the wallet that reaches the amount, or all of it |
| `InputSelection.SelectionIsUnique` | taptrade-cli-demo/trader/src/wallet/mod.rs:123-134 | That specification leaves no choice |
| `InputSelection.SelectionReaches` | taptrade-cli-demo/trader/src/wallet/mod.rs:123-134 | The selection reaches its target iff the whole wallet does |
| `InputSelection.EnoughIff` | taptrade-cli-demo/coordinator/src/wallet/escrow_psbt.rs:168-171 | A target is enough for every wallet iff it is at least what is due |
| `InputSelection.MakerChangeIsDefined` | taptrade-cli-demo/trader/src/trading/maker_utils.rs:23-30 | The maker's change is at least 5000 + fee1 - fee2 and never underflows |
| `InputSelection.MakerChangeSurvivesRounding` | taptrade-cli-demo/trader/src/trading/maker_utils.rs:23-30 | With both fees rounded in their own way the maker's change is still at least 4999 |
| `InputSelection.TakerChangeIsDefinedIff` | taptrade-cli-demo/trader/src/trading/taker_utils.rs:20-31 | The taker's change never underflows iff its trade value is at least amount + fee + 5000 |
| `InputSelection.OriginalFigureWouldCoverTaker` | taptrade-cli-demo/coordinator/src/coordinator/mod.rs:19-26 | With the figure of the request entering the amount is enough; with the overwritten one it is not |
| `InputSelection.SumOfSelected` | taptrade-cli-demo/coordinator/src/wallet/escrow_psbt.rs:16-27 | What the coordinator sums up is what the trader selected |
| `InputSelection.MakerInputsArriveAndSuffice` | taptrade-cli-demo/coordinator/src/wallet/escrow_psbt.rs:168-169 | The maker's printed selection parses back unchanged and covers what is due |
| `CsvInputs.RoundTrip` | taptrade-cli-demo/coordinator/src/wallet/wallet_utils.rs:92-103 | Parsing the printed list gives it back in order iff it is not empty |
| `CsvInputs.CsvHexToBdkInput` | taptrade-cli-demo/coordinator/src/wallet/wallet_utils.rs:92-103 | All parts or the first error; as many inputs as parts, so the check for an empty list cannot fail |
| `CsvInputs.SplitJoin` | taptrade-cli-demo/trader/src/wallet/mod.rs:135 | Splitting undoes joining for parts without commas |
| `CsvInputs.JoinSplit` | taptrade-cli-demo/coordinator/src/wallet/wallet_utils.rs:94 | Joining undoes splitting for every text |
| `CsvInputs.HexRoundTrip` | taptrade-cli-demo/trader/src/wallet/mod.rs:129 | Decoding undoes encoding, and encoded bytes hold no comma |
| `CsvInputs.HexOfAByte` | taptrade-cli-demo/coordinator/src/wallet/wallet_utils.rs:95 | Two digits a byte, the higher one first, in either letter case |
| `CsvInputs.Split` | taptrade-cli-demo/coordinator/src/wallet/wallet_utils.rs:94 | Splitting never yields an empty list |
| `MempoolCache.Mempool.RunPass` | taptrade-cli-demo/coordinator/src/coordinator/mempool_monitoring.rs:29-79 | The cache after one turn of the loop, as a function of the cache before |
| `MempoolCache.CacheIsExact` | taptrade-cli-demo/coordinator/src/coordinator/mempool_monitoring.rs:43-69 | Over every sequence of passes a transaction is cached iff some pass fetched it and every completed pass since saw it, and always with its true inputs |
| `MempoolCache.CacheRefinesRescan` | taptrade-cli-demo/coordinator/src/coordinator/mempool_monitoring.rs:70-79 | After a completed pass the outpoint set is the inputs of the known transactions of the snapshot: within a full rescan, and equal to it when each was known or fetched |
| `MempoolCache.FailedSnapshotsChangeNothing` | taptrade-cli-demo/coordinator/src/coordinator/mempool_monitoring.rs:32-38 | Over every sequence of passes the cache is that of the completed ones alone |
| `Bonds.ValidateBonds` | taptrade-cli-demo/coordinator/src/wallet/mod.rs:133-223 | Where a txid determines its transaction the batch succeeds iff every bond can be checked, and returns exactly the bonds that fail the pointwise predicate |
| `Bonds.ValidateBondTxHex` | taptrade-cli-demo/coordinator/src/wallet/mod.rs:106-127 | Admits a bond iff it can be checked and does not fail |
| `Bonds.AdmissionAgreesWithMonitoring` | taptrade-cli-demo/coordinator/src/wallet/mod.rs:106-127 | Run on the same bond, admission lets it in iff the batch, with any other bonds in it, does not name it |
| `Bonds.CheckBond` | taptrade-cli-demo/coordinator/src/wallet/mod.rs:141-205 | Which check rejects the bond first, on scripts, input sum, bond output and fee < 200 * vsize; an error iff a check cannot be made |
| `Bonds.InputSum` | taptrade-cli-demo/coordinator/src/wallet/wallet_utils.rs:27-52 | The worth of all inputs; an error iff one is unknown or the sum is zero |
| `Bonds.BondOutputSum` | taptrade-cli-demo/coordinator/src/wallet/wallet_utils.rs:62-73 | The first output to the bond address; an error iff there is none |
| `Bonds.AllOutputSum` | taptrade-cli-demo/coordinator/src/wallet/wallet_utils.rs:79-81 | The sum of all outputs |
| `Bonds.CallInChunks` | taptrade-cli-demo/coordinator/src/wallet/mod.rs:271-286 | Chunks of 25 yield one answer for each bond, in order |
| `Bonds.SearchByTxid` | taptrade-cli-demo/coordinator/src/wallet/mod.rs:250-261 | Finds the first bond of the txid iff there is one |
| `Bonds.TestMempoolAcceptBonds` | taptrade-cli-demo/coordinator/src/wallet/mod.rs:264-306 | Returns exactly the bonds that the node rejects |
| `Bonds.LookupMempoolInputs` | taptrade-cli-demo/coordinator/src/coordinator/mempool_monitoring.rs:107-129 | Returns exactly the bonds that spend a cached outpoint |
| `Bonds.HoldsMerged` | taptrade-cli-demo/coordinator/src/wallet/mod.rs:216-220 | Extending one result map by another loses and invents nothing |
| `Bonds.FetchAllBonds` | taptrade-cli-demo/coordinator/src/database/mod.rs:484-510 | Exactly the bonds of the orderbook rows, with transaction, bond address, bond amount and trade amount |
| `Bonds.PunishAll` | taptrade-cli-demo/coordinator/src/coordinator/bond_monitoring.rs:33-58 | Publishes and removes the named bonds in pairs, each once and in order, and is done iff none was left out |
| `Bonds.PunishedIsPublished` | taptrade-cli-demo/coordinator/src/coordinator/bond_monitoring.rs:47-58 | Publications and removals come in pairs, and each named bond is published exactly once |
| `Bonds.PublishedOnesFail` | taptrade-cli-demo/coordinator/src/coordinator/bond_monitoring.rs:80-95 | Only failing bonds are published |
| `Bonds.FailingOnesPublished` | taptrade-cli-demo/coordinator/src/coordinator/bond_monitoring.rs:80-95 | In a finished pass each failing bond is published exactly once |
| `Bonds.PassIsExact` | taptrade-cli-demo/coordinator/src/coordinator/bond_monitoring.rs:71-80 | No offer with a good bond is removed, and a finished pass removes an offer for each failing bond |
| `Bonds.DistinctBondsLeavePassing` | taptrade-cli-demo/coordinator/src/coordinator/bond_monitoring.rs:63-98 | With distinct bonds exactly the offers whose bond passes are left |
| `Bonds.PunishedOneForEachBond` | taptrade-cli-demo/coordinator/src/coordinator/bond_monitoring.rs:29-31 | Offers that share a bond share one entry of the result, so at most one of them is removed |
| `Bonds.MonitorPass` | taptrade-cli-demo/coordinator/src/coordinator/bond_monitoring.rs:63-98 | With punishment off or set badly nothing is published or removed; only failing bonds are published, each once in a finished pass and each followed by a removal; exactly one failing offer for each failing bond is removed, which leaves exactly the passing offers iff no two offers of one bond fail together; one that stops early removes no other; no other table changes |
| `Bonds.PassingLeftIff` | taptrade-cli-demo/coordinator/src/coordinator/bond_monitoring.rs:63-98 | A finished pass leaves exactly the passing offers iff no two offers of one bond fail together |
| `Bonds.FailingTogetherLeavesOne` | taptrade-cli-demo/coordinator/src/coordinator/bond_monitoring.rs:29-31 | Of two such offers one stays listed |
| `Bonds.OffersCanFailTogether` | taptrade-cli-demo/coordinator/src/coordinator/bond_monitoring.rs:29-31 | That occurs wherever one failing bond transaction is listed twice |
| `Confirmations.GetConfirmations` | taptrade-cli-demo/coordinator/src/coordinator/tx_confirmation_monitoring.rs:4-60 | The qualifying subsequence, in order; an error iff some answer fails |
| `Confirmations.QualifyingMembers` | taptrade-cli-demo/coordinator/src/coordinator/tx_confirmation_monitoring.rs:49-57 | A txid is in it iff it was asked for and has more than 3 confirmations |
| `Confirmations.UpdateTransactionConfirmations` | taptrade-cli-demo/coordinator/src/coordinator/tx_confirmation_monitoring.rs:65-113 | Marks exactly the unconfirmed rows whose txid has more than 3 confirmations, changes nothing else, and nothing on an error |
| `SpendingRights.EscrowRights` | taptrade-cli-demo/coordinator/src/wallet/escrow_psbt.rs:58-97 | The escrow is spendable iff two of the three parties sign, or the maker does from lock height 12228 on |
| `SpendingRights.OpensByLeaf` | taptrade-cli-demo/coordinator/src/wallet/escrow_psbt.rs:87-97 | A tree opens iff one of its leaves is met |
| `SpendingRights.ShapeDoesNotMatter` | taptrade-cli-demo/coordinator/src/wallet/escrow_psbt.rs:93-97 | Trees with the same leaves give the same rights |
| `SpendingRights.RightsMonotone` | taptrade-cli-demo/coordinator/src/wallet/escrow_psbt.rs:49-116 | More signers or a later height never take a right away |
| `Database.CoordinatorDb.InsertNewMakerRequest` | taptrade-cli-demo/coordinator/src/database/mod.rs:170-192 | The request replaces any older one of the maker and nothing else, column by column |
| `Database.CoordinatorDb.FetchBondRequirements` | taptrade-cli-demo/coordinator/src/database/mod.rs:195-208 | Bond address, bond amount and trade amount of the pending request |
| `Database.CoordinatorDb.FetchAndDeleteOfferFromBondTable` | taptrade-cli-demo/coordinator/src/database/mod.rs:211-242 | Returns the pending request and takes it out |
| `Database.CoordinatorDb.MoveOfferToActive` | taptrade-cli-demo/coordinator/src/database/mod.rs:245-287 | The request becomes an orderbook row with the columns of the request and of the submission, or nothing changes |
| `Database.CoordinatorDb.FetchSuitableOffers` | taptrade-cli-demo/coordinator/src/database/mod.rs:290-328 | Lists exactly the suitable rows, each once, with amount, bond address, bond amount and required input; None iff there is none |
| `Database.CoordinatorDb.FetchTakerBondRequirements` | taptrade-cli-demo/coordinator/src/database/mod.rs:331-348 | Taker bond address, bond amount and trade amount of the listed offer |
| `Database.CoordinatorDb.AddTakerInfoAndMoveTable` | taptrade-cli-demo/coordinator/src/database/mod.rs:387-442 | The offer becomes a taken row with the columns of the offer, of the taker and of the escrow and with every flag and slot empty, or nothing changes |
| `Database.CoordinatorDb.RemoveFromOrderbook` | taptrade-cli-demo/coordinator/src/database/mod.rs:513-526 | Takes one offer out of the orderbook |
| `Database.CoordinatorDb.IsValidRobohashInTable` | taptrade-cli-demo/coordinator/src/database/mod.rs:569-584 | Whether the robohash is a trader of the row |
| `Database.CoordinatorDb.IsMakerInTakenOffers` | taptrade-cli-demo/coordinator/src/database/mod.rs:587-605 | The role of the robohash; an error for anyone else |
| `Database.CoordinatorDb.FetchEscrowTxConfirmationStatus` | taptrade-cli-demo/coordinator/src/database/mod.rs:685-692 | The confirmation flag, or an error without a row |
| `Database.CoordinatorDb.FetchBothSignedEscrowPsbts` | taptrade-cli-demo/coordinator/src/database/mod.rs:664-682 | Both PSBTs, maker first, iff both are stored |
| `Database.CoordinatorDb.FetchTraderHappiness` | taptrade-cli-demo/coordinator/src/database/mod.rs:727-744 | NULL, true and false of both columns, and the dispute flag |
| `Database.CoordinatorDb.FetchEscrowResult` | taptrade-cli-demo/coordinator/src/database/mod.rs:747-760 | The stored winner |
| `Database.CoordinatorDb.FetchKeyspendPayoutPsbt` | taptrade-cli-demo/coordinator/src/database/mod.rs:971-980 | The stored payout PSBT |
| `Database.CoordinatorDb.FetchUnconfirmedEscrowTxids` | taptrade-cli-demo/coordinator/src/database/mod.rs:530-542 | Exactly the txids of unconfirmed rows |
| `Database.CoordinatorDb.GetOpenEscrows` | taptrade-cli-demo/coordinator/src/database/mod.rs:1013-1030 | Exactly the open disputes, with their traders |
| `Database.CoordinatorDb.InsertSignedEscrowPsbt` | taptrade-cli-demo/coordinator/src/database/mod.rs:608-661 | Fills the trader's own empty slot; false for a filled one, an error for anyone else |
| `Database.CoordinatorDb.InsertPartialSig` | taptrade-cli-demo/coordinator/src/database/mod.rs:877-929 | Fills the trader's own empty slot; an error for a filled one and for anyone else |
| `Database.CoordinatorDb.SetTraderHappyField` | taptrade-cli-demo/coordinator/src/database/mod.rs:695-723 | Writes 1 or NULL into the trader's own column; NULL also opens a dispute; no other column changes |
| `Database.CoordinatorDb.ToggleProcessing` | taptrade-cli-demo/coordinator/src/database/mod.rs:983-1001 | Flips the flag and returns its new value |
| `Database.CoordinatorDb.InsertKeyspendPayoutPsbt` | taptrade-cli-demo/coordinator/src/database/mod.rs:863-874 | Stores the PSBT in this row only |
| `Database.CoordinatorDb.ConfirmBondTxids` | taptrade-cli-demo/coordinator/src/database/mod.rs:545-555 | Marks every row of every listed txid and no other |
| `Database.CoordinatorDb.ResolveEscrow` | taptrade-cli-demo/coordinator/src/database/mod.rs:1033-1040 | Stores the winner and closes the dispute in this row only |
| `Database.CoordinatorDb.DeleteCompleteOffer` | taptrade-cli-demo/coordinator/src/database/mod.rs:1004-1010 | Takes this row out and no other |

## Left out

- HTTP routing, JSON, status codes, shutdown, logging, timers and the traders' request code: no state of their own.
- SQL text, the driver and the file format of the database: replaced by maps with optional columns, one step for each statement.
- Bitcoin RPC, the BDK wallets, PSBT combination and broadcast: their outcomes are parameters (`Trade.Env`, `Bonds.Chain`, `Lifecycle.MoveEnv`, `Offers.EscrowWallet`).
- Elliptic curves, MuSig2 aggregation and tweaks, SHA-256, the miniscript compiler: a signature, a PSBT and a hash are plain values, and a policy is what it means.
- Locks of the wallet and of the mempool cache: one pass and one lookup are taken as a whole, as the write and read locks make them.
- EscrowAmounts.FeeFormulasAgree: without the rounding of binary64, under which the two fees can differ; `EscrowAmounts.RoundedFeesAreClose` bounds the difference.
- Offers.EscrowFundedIff: its service fee is the exact one, within one satoshi of a rounded one.
- The stubs `validate_escrow_init_psbt`, `validate_escrow_psbt` and `validate_payout_psbt`, which accept everything, and the unimplemented script path payout, where a run stops.
- `get_offer_status_maker`, `fetch_escrow_confirmation_status` and `fetch_escrow_output_information`: each reads columns of one row that the model has, and changes nothing.
- The offer duration: it is carried through the tables, but nothing in the coordinator removes an offer when it expires.
- TradeCausality.ConfirmationSound: a txid listed by a pass is not tied to the rows that pass read, so the model allows more runs than the monitor has.
- Handlers.HandleFinalPayout: whether the payout data can be assembled from the row is an outcome of the environment, since it depends on the aggregation of keys and nonces.
- Lifecycle.NeverBackInOrderbook: the statement of a trade on a taken row may be any that keeps its terms or deletes it; `MovesAlone.TradeStepsAreTrades` shows that the trade has no others.
- Bonds.MonitorPass: the deletion of a punished offer always succeeds, and the punishment setting is read once for a pass.
