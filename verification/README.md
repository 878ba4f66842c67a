# rougechain-node: a verified model of its relayers, codecs, finality verifier and marketplace

A Dafny 4.11 project about the parts of rougechain-node that move money or decide what is final. Dependencies that
the code cannot trust (chains, the daemon, the network, the disk) are families of answers: every theorem holds for
every answer, including a throw, and where a property needs an honest environment the theorem says so.

| files | what they model |
|---|---|
| `BtcRelayer`, `BtcSaves`, `BtcPlanner` | the BTC payout relayer: sign once, save, broadcast, across crashes and saves that throw; the coin planner and the payout recogniser |
| `EvmTrace`, `EvmRelayer` | the qETH/qUSDC relayer: release, receipt classification, timelock queue, reconciliation, refund gate; a discipline on whole traces of interleaved steps, over restarts and failed saves, and the code that keeps it |
| `XrgeRelayer`, `PagedScan` | the XRGE vault relayer and the paged log scan |
| `Landing` | what a trace shows of the releases a contract accepted, for both relayers |
| `Json`, `JsonRoundTrip`, `JsonSoundness`, `JsonParser` | the lossless JSON printer and parser |
| `Decimal`, `Utf8`, `Scanner`, `Encoding`, `UniqueReading`, `EncodingMeaning`, `PayloadTable`, `Preimage` | the canonical encoding that feeds transaction and block hashes |
| `Finality` | stake sets, vote messages and the certificate checker |
| `Words`, `Bech32m`, `Address` | Bech32m (BIP 350) addresses, both implementations |
| `SignIn`, `MessageSigning` | sign-in text and signed messages |
| `Money` | exact XRGE/quanta conversion |
| `Marketplace`, `MarketContract` | the escrow NFT marketplace, as a state machine and over its stored bytes |
| `Deposits`, `DepositPolls` | the deposit watcher: a poll, and polls that overlap |

`dafny verify dfyconfig.toml` checks everything.

How the environment is modelled: a class that talks to the outside holds an `Env` of functions from the number of calls
made so far to an answer, `None` being a throw. BTC and deposit models also crash and restart from disk. The EVM and
XRGE relayers append what they read and do to a trace; `Accepts` says which event may follow which, each method is
proved to append only allowed events, and the theorems are about every accepted trace. A trace spans processes: it
begins with no files, saves succeed or fail, and a kill after any event is followed by a start from the files. Steps
over different withdrawals interleave: at every await the environment may let any other allowed event happen. Overlapping
deposit polls are a state machine with one step per await.

Where the code and its own text differ, the model follows the code:

- A failed TimelockCancelled scan can still be followed by a persisted record: when the entry itself reads as cancelled
  and can be read again, whatever the second read says (`EvmRelayer.FailedCancelScan`). A timelock entry that cannot be read during reconciliation is recorded as ambiguous.
- `stringifyLossless` says keys are printed in insertion order; JavaScript lists integer-like keys first, and so does the model.
- Zero written with a large negative exponent is refused (`Money.ZeroIsAcceptedIff`).
- A withdrawal whose process ends between the refund and the saved mark can be paid as well, if the daemon lists it
  again (`EvmTrace.PaidAfterRefundIff`, `XrgeRelayer.PaidAfterRefundIff`).
- Two polls of the timelock queue can hold one record, and then one that needs an operator can be dropped (`EvmTrace.OverlappingPollsDropAFlag`).
- Overlapping deposit polls can leave a deposit claimed and pending, and can move the cursor back (`DepositPolls.OverlapBreaksDisjointness`, `DepositPolls.OverlapMovesTheCursorBack`).
- A royalty paid to the marketplace itself stays in it (`Marketplace.SomeRoyaltyStays`).
- A BTC plan whose save threw is sent from memory by the next call, and a kill then may be followed by a second payout (`BtcSaves.UnsavedPlanIsPaidTwice`).
- A valid sign-in field set whose address contains a line break does not read back (`SignIn.BrokenFieldsAreNotReadBack`).
- The two address recognisers accept different texts (`Address.RecognisersDisagree`).
- A shutdown noticed inside the deposit claim loop lets the cursor pass deposits that are in no set (`Deposits.ShutdownLosesADeposit`).

## Model

| member | source | states |
|---|---|---|
| BtcRelayer.KnownPayoutTxids | scripts/btc-relayer-core.ts:247-254 | collects exactly the transaction ids some entry names, as payout or as plan |
| BtcRelayer.ReservedInputs | scripts/btc-relayer-core.ts:257-264 | collects exactly the coins held by the plans of every other withdrawal |
| BtcRelayer.FreshCoinsMakeAFreshTxid | scripts/btc-relayer-core.ts:413-448 | a transaction built on unspent coins outside every other plan is not on the network, not in flight and not named by any entry |
| BtcRelayer.PlanKeepsSafe | scripts/btc-relayer-core.ts:443-448 | saving a freshly signed plan before it is broadcast keeps every network transaction attributed to one withdrawal |
| BtcRelayer.SettleKeepsSafe | scripts/btc-relayer-core.ts:453-466 | turning a plan into a payout keeps the attribution of everything on the network |
| BtcRelayer.DropKeepsSafe | scripts/btc-relayer-core.ts:480-484 | dropping a plan that is neither on the network nor in flight loses no attribution, so a rebuild is safe |
| BtcRelayer.AdoptKeepsSafe | scripts/btc-relayer-core.ts:363-384 | adopting a payout found on chain never takes over a transaction signed for another withdrawal |
| BtcRelayer.ReviewKeepsSafe | scripts/btc-relayer-core.ts:312-322 | flagging a withdrawal for review loses no attribution |
| BtcRelayer.SettlementKeepsSafe | scripts/btc-relayer-core.ts:451-485 | whatever truthful answer a broadcast gets, the entry written for it keeps the safety of the whole state |
| BtcRelayer.VerdictMovesForward | scripts/btc-relayer-core.ts:451-485 | each broadcast answer moves an entry forward only: no payout is forgotten, no plan replaced, the attempt count bounded |
| BtcRelayer.Relayer.AwaitAndFulfill | scripts/btc-relayer-core.ts:324-340 | fulfils only the recorded payout and only at the configured depth; a failed depth read changes nothing |
| BtcRelayer.Relayer.SettleBroadcast | scripts/btc-relayer-core.ts:451-485 | memory and disk become exactly the verdict on the answer, or the process died before the write |
| BtcRelayer.Relayer.Resend | scripts/btc-relayer-core.ts:342-361 | sends only the saved bytes again, so that nothing but the planned transaction can join those in flight; never signs, and nothing is sent when not live |
| BtcRelayer.Relayer.RecoverLegacy | scripts/btc-relayer-core.ts:363-384 | an entry left without a plan is adopted from history or flagged, never paid again |
| BtcRelayer.Relayer.SignAndSend | scripts/btc-relayer-core.ts:435-448 | signs once, saves, then broadcasts; a crash between any two of these leaves a state the next call can continue |
| BtcRelayer.Relayer.PayNew | scripts/btc-relayer-core.ts:386-449 | signs only after a healthy daemon, an empty history and attempts to spare; a cooperative environment gets the withdrawal paid |
| BtcRelayer.Relayer.ProcessBtcWithdrawal | scripts/btc-relayer-core.ts:290-449 | every outcome with what it did to disk, network, signatures and fulfilments; a changed or flagged record is never paid |
| BtcRelayer.Relayer.Run | scripts/btc-relayer-core.ts:290-485 | over every schedule of calls and crashes: at most one transaction per withdrawal on the network, recorded payouts never change |
| BtcRelayer.AtMostOnePayout | scripts/btc-relayer-core.ts:290-485 | in every reachable state two network transactions of one withdrawal are the same transaction |
| BtcRelayer.EveryPayoutIsAccounted | scripts/btc-relayer-core.ts:247-264 | every custody transaction on the network is the plan or payout of exactly one withdrawal, with its destination and amount |
| BtcRelayer.NoSharedTxid | scripts/btc-relayer-core.ts:247-264 | no transaction id is attributed to two withdrawals, as plan or as payout |
| BtcRelayer.PlansAreDisjoint | scripts/btc-relayer-core.ts:257-264 | the coins of unsettled plans are pairwise disjoint |
| BtcRelayer.FreshStartIsSafe | scripts/btc-relayer-core.ts:290-322 | an empty state file is a safe starting point whatever others have on the network |
| BtcSaves.StepKeepsGood | scripts/btc-relayer-core.ts:290-485 | within one process memory names every transaction that is out, whatever saves throw |
| BtcSaves.OnFileUnlessAnUnsavedPlanIsSent | scripts/btc-relayer-core.ts:342-361 | the file names it too, until exactly one kind of step: the next call sends a plan whose save threw |
| BtcSaves.KillIsSafeIff | scripts/btc-relayer-core.ts:435-448 | the exact condition: after a kill the next process may put out a second payout if and only if one is out that the file does not name |
| BtcSaves.AtMostOneOverProcesses | scripts/btc-relayer-core.ts:290-485 | over any number of processes with saves throwing anywhere, at most one payout is out if every kill comes when the file names it |
| BtcSaves.SentFromFileSuffices | scripts/btc-relayer-core.ts:435-448 | so kills are harmless everywhere if no plan is sent that is not on file |
| BtcSaves.UnsavedPlanIsPaidTwice | scripts/btc-relayer-core.ts:342-448 | the failing run: the save of a first plan throws, the next call sends it, and a kill may be followed by a second payout |
| BtcPlanner.P2wpkhVsize | scripts/btc-relayer-core.ts:41-47 | the size is the weight divided by four, rounded up |
| BtcPlanner.FeeIsClose | scripts/btc-relayer-core.ts:50-54 | the fee is size times rate, rounded up, to within a billionth, for every positive rate |
| BtcPlanner.FeeIsTheCeiling | scripts/btc-relayer-core.ts:50-54 | for rates of at most nine decimals it is exactly that: the rounding adds no phantom satoshi |
| BtcPlanner.SortIsAPermutation | scripts/btc-relayer-core.ts:88-88 | the largest-first order is a permutation of the coins |
| BtcPlanner.SumIsOrderFree | scripts/btc-relayer-core.ts:88-93 | reordering coins does not change their sum |
| BtcPlanner.FirstAreLargest | scripts/btc-relayer-core.ts:88-96 | no other choice of as many coins is worth more than the first ones |
| BtcPlanner.SelectInputs | scripts/btc-relayer-core.ts:88-96 | the loop stops at the shortest largest-first prefix that covers the amount and an above-dust change, or takes every coin |
| BtcPlanner.PlanPayout | scripts/btc-relayer-core.ts:87-113 | insufficient exactly when all coins together are worth less than the amount; a plan conserves value |
| BtcPlanner.InsufficientIffPoor | scripts/btc-relayer-core.ts:97-97 | the selection falls short exactly when the whole wallet does |
| BtcPlanner.PlanConserves | scripts/btc-relayer-core.ts:99-112 | inputs = pay + change + fee; pay above dust; change zero or above dust; fee within the cap; custody falls by exactly the amount unless every coin was used |
| BtcPlanner.NoFewerCoinsSuffice | scripts/btc-relayer-core.ts:91-106 | when a plan carries change, no choice of fewer coins could have covered the amount and an above-dust change |
| BtcPlanner.EsploraTxFee | scripts/btc-relayer-core.ts:124-137 | returns inputs less outputs, and nothing exactly when there is no input, an input is unknown, outputs exceed inputs or a stated fee disagrees |
| BtcPlanner.PayoutSettles | scripts/btc-relayer-core.ts:144-154 | accepts exactly the transactions that spend custody and pay the destination the amount, or the amount less their own fee within the cap |
| BtcPlanner.TxOfAddsUp | scripts/btc-relayer-core.ts:124-137 | the transaction a plan describes has that plan's fee and pays the destination that plan's amount |
| BtcPlanner.PlannedPayoutSettles | scripts/btc-relayer-core.ts:87-154 | every planned payout is recognised as settling its withdrawal under the same cap |
| Json.ParseValue | sdk/src/finality-verify.ts:87-122 | consumes text at every step, so the parser terminates on every input |
| JsonRoundTrip.UnescapeInvertsEscape | sdk/src/finality-verify.ts:76-86 | reading a JSON.stringify body gives the string back, lone surrogates included |
| JsonRoundTrip.QuotedStringReadsBack | sdk/src/finality-verify.ts:76-86 | the scan finds the closing quote whatever follows, and the token decodes to the string |
| JsonRoundTrip.NumberReadsBack | sdk/src/finality-verify.ts:66-66 | the number pattern takes exactly a number of section 6 of RFC 8259, whatever stops it |
| JsonRoundTrip.ValueReadsBack | sdk/src/finality-verify.ts:72-136 | a printed value followed by a delimiter is read back at any depth, or refused exactly past 256 levels |
| JsonRoundTrip.RoundTrip | sdk/src/finality-verify.ts:72-136 | parse(print(v)) is v with every number's text unchanged when v nests at most 256 deep, and a failure otherwise |
| JsonSoundness.NumberTaken | sdk/src/finality-verify.ts:66-66 | whatever the number pattern takes is a number of section 6 of RFC 8259 |
| JsonSoundness.InsertKeepsOwnOrder | sdk/src/finality-verify.ts:97-99 | setting a new key keeps own-property order and unique keys |
| JsonSoundness.ParseIsStable | sdk/src/finality-verify.ts:72-136 | every accepted text is a well-formed value at most 256 deep; printing and parsing it again changes nothing |
| JsonParser.Parser.Ws | sdk/src/finality-verify.ts:74-74 | the cursor stops at the first non-space |
| JsonParser.Parser.Str | sdk/src/finality-verify.ts:76-86 | the cursor loop accepts exactly the string tokens of the specification and stops right after them |
| JsonParser.Parser.Scalar | sdk/src/finality-verify.ts:114-121 | literals and numbers are taken as specified, with the cursor after them |
| JsonParser.Parser.ArrayItems | sdk/src/finality-verify.ts:104-112 | the filling loop computes the specified array and cursor |
| JsonParser.Parser.ObjectMembers | sdk/src/finality-verify.ts:91-103 | the filling loop computes the specified object, refusing a repeated key |
| JsonParser.Parser.Val | sdk/src/finality-verify.ts:87-122 | value and cursor are those of the specification on every input |
| JsonParser.ParseJsonLossless | sdk/src/finality-verify.ts:72-126 | the cursor parser is the specification parser, trailing text refused |
| Decimal.CanonicalPrintsBack | sdk/src/finality-verify.ts:170-174 | a canonical numeral is the text of its value |
| Scanner.SplitIsUnique | sdk/src/finality-verify.ts:229-247 | two texts made of joined members and a closing bracket are equal only member by member |
| Utf8.EncodeAppends | sdk/src/finality-verify.ts:324-336 | bytes of joined well-formed texts are the joined bytes |
| Utf8.EncodeIsInjective | sdk/src/finality-verify.ts:324-324 | well-formed text is determined by its UTF-8 bytes |
| Utf8.EscapedIsPaired | sdk/src/finality-verify.ts:179-182 | JSON.stringify never writes half a surrogate pair |
| UniqueReading.WholeValue | sdk/src/finality-verify.ts:188-207 | the encoding of any JSON value ends exactly where its own brackets and quotes close |
| UniqueReading.WholeStruct | sdk/src/finality-verify.ts:229-247 | the same for every encoded struct, nested ones included |
| UniqueReading.StructReadsOneWay | sdk/src/finality-verify.ts:229-247 | encoded structs are prefix-free, and equal texts have equal entries |
| UniqueReading.StructCommitsToFields | sdk/src/finality-verify.ts:229-247 | with distinct field names, equal encodings agree on every field, absent ones included |
| UniqueReading.ScalarIsDetermined | sdk/src/finality-verify.ts:170-182 | for text, unsigned and boolean fields the value itself is determined; for optional ones up to null standing for absent |
| EncodingMeaning.IntegersAreKept | sdk/src/finality-verify.ts:190-196 | an integer within the signed-minimum and unsigned-maximum 64-bit bounds is written exactly as read |
| EncodingMeaning.FixedKeepsValue | sdk/src/finality-verify.ts:158-162 | fixed notation denotes the same number and always has a fractional part |
| EncodingMeaning.ScientificKeepsValue | sdk/src/finality-verify.ts:163-163 | scientific notation denotes the same number: the same digits, scaled by the same power of ten |
| EncodingMeaning.KeysAreOrdered | sdk/src/finality-verify.ts:198-205 | code point order is a strict total order on keys: irreflexive, total and transitive |
| EncodingMeaning.SortSorts | sdk/src/finality-verify.ts:198-205 | sorting gives the same entries in strictly increasing code point order |
| EncodingMeaning.ObjectsAreMaps | sdk/src/finality-verify.ts:188-207 | values that differ only in the order in which members were inserted, at any depth, have the same encoding |
| Preimage.TxListIsDetermined | sdk/src/finality-verify.ts:283-293 | equal transaction-list preimages hold the same number of transactions with the same encodings in the same order |
| Preimage.BlockIsDetermined | sdk/src/finality-verify.ts:310-346 | equal block preimages have the same header encoding and the same proposer signature bytes |
| Preimage.TxCommits | sdk/src/finality-verify.ts:283-293 | equal transaction encodings agree on sender, nonce, type, version and signature themselves, and on the text of every other field |
| Preimage.PayloadCommits | sdk/src/finality-verify.ts:249-293 | and on every one of the 93 payload fields, absent ones included: the scalar ones by value, the others by their text |
| PayloadTable.PayloadNamesDiffer | sdk/src/finality-verify.ts:249-281 | no two payload fields share a name |
| Preimage.HeaderCommits | sdk/src/finality-verify.ts:310-323 | equal header encodings agree on every field, the scalar ones by value |
| Finality.TotalIsConserved | sdk/src/finality-verify.ts:382-390 | the total is the sum of all positive stakes, repeated keys added up, and exactly the keys with positive stake are in the set |
| Finality.FinalityQuorum | sdk/src/finality-verify.ts:392-392 | the least stake that is more than two thirds of the total |
| Finality.ToStakeSet | sdk/src/finality-verify.ts:382-390 | the loops build that set, its total and its quorum |
| Finality.VoteMessageIsInjective | sdk/src/finality-verify.ts:348-350 | equal vote messages name the same chain, height and block |
| Finality.VoteBytesDiffer | sdk/src/finality-verify.ts:348-350 | vote messages for different hashes are different as UTF-8 bytes, for any chain name |
| Finality.ShapedCertificate | sdk/src/finality-verify.ts:296-306 | once the shape check passes, every field that is read has the type it is read at |
| Finality.CountVotes | sdk/src/finality-verify.ts:427-447 | all votes pass exactly when each is good and voters are distinct; then voters and stake are those of the votes |
| Finality.VerifyCertificate | sdk/src/finality-verify.ts:412-459 | accepts exactly the valid certificates: shape, height, hash, vote limits, good distinct votes, quorum and, for a set declared for that height, matching claims |
| Finality.QuorumsIntersect | sdk/src/finality-verify.ts:392-392 | two quorums share more than a third of the total stake |
| Finality.AccountableFinality | sdk/src/finality-verify.ts:412-459 | two valid certificates for one chain, height and set with different hashes expose validators with over a third of the stake, each of which signed both of two different byte strings |
| Common.EffectiveDepth | scripts/bridge-relayer-core.ts:810-812 | the fulfil depth is the larger of the relayer's setting and the daemon's minimum |
| EvmTrace.SubmitFollowsAFalseRead | scripts/bridge-relayer-core.ts:1010-1067 | every release, retries included, follows a processed-read of false for that withdrawal in the same step with no release in between, however the steps of different withdrawals interleave and over any number of restarts |
| EvmTrace.RefundFollowsTwoFalseReads | scripts/bridge-relayer-core.ts:903-979 | a refund follows two processed-reads of false, a failure report one, with no release or other answer since |
| EvmTrace.AlwaysInStep | scripts/bridge-relayer-core.ts:712-729 | after any run of interleaved steps, whatever saves failed and wherever the process was killed: records are filed under their own ids, flagged records on file are in memory too, marks on file are in memory, and a record that left memory but not the file is that of a processed withdrawal |
| EvmTrace.OtherStepsKeepStep | scripts/bridge-relayer.ts:807-870 | a step over one withdrawal does not touch the step over another |
| EvmTrace.OtherStepsKeepRecord | scripts/bridge-relayer.ts:807-870 | nor its record or its mark |
| EvmTrace.TwoWithdrawalsInterleave | scripts/bridge-relayer.ts:807-870 | runs in which a second withdrawal begins and reads while the first is under way are among those the theorems are about |
| EvmTrace.RecordedIsNeitherSubmittedNorRefunded | scripts/bridge-relayer-core.ts:1000-1003 | a withdrawal with a queue record, in memory or on file, is never released and never refunded |
| EvmTrace.FlaggedForever | scripts/bridge-relayer-core.ts:443-467 | an ambiguous or cancelled record that is on file is never changed or dropped again, on file or in memory, by this process or any later one, whatever other steps run meanwhile, as long as no two polls hold one record |
| EvmTrace.FlaggedUntilRestart | scripts/bridge-relayer-core.ts:712-729 | one that is only in memory stays until the process ends |
| EvmTrace.FlagSurvivesIffSaved | scripts/bridge-relayer-core.ts:461-467 | over a restart it is kept if and only if it was saved |
| EvmTrace.OverlappingPollsDropAFlag | scripts/bridge-relayer.ts:1113-1120 | two polls of one record, each keeping the discipline alone, can together drop it once it is flagged: the code has no guard here, so one step per withdrawal is a hypothesis for polls |
| EvmTrace.DroppedOnlyWhenFulfilled | scripts/bridge-relayer-core.ts:849-861 | a queue record leaves memory only in a step in which the daemon accepted its fulfilment, or at a restart |
| EvmTrace.FulfilmentIsSound | scripts/bridge-relayer-core.ts:818-861 | every fulfilment names a successful transaction whose logs release at least the owed amount for that id and recipient, at the required depth below a head, all of them read in that very step |
| EvmTrace.FailedScanIsQuiet | scripts/bridge-relayer-core.ts:747-847 | after a failed scan page nothing is released, fulfilled, persisted, reported or refunded for that withdrawal in that step |
| EvmTrace.FailedCancelScanMovesNothing | scripts/bridge-relayer-core.ts:1193-1216 | after a failed TimelockCancelled scan nothing is released, fulfilled, reported or refunded in that step, and a record is written only if the entry read before it said cancelled and an entry was read after it |
| EvmTrace.NeverPaidAndRefunded | scripts/bridge-relayer-core.ts:903-979 | with truthful answers and no release in flight, a withdrawal that was refunded and not taken up again is not accepted by the bridge, over any number of restarts |
| EvmTrace.TakenUpOnlyAfterALostMark | scripts/bridge-relayer-core.ts:930-937 | a refunded withdrawal is taken up again only if a process ended before its mark was on file |
| EvmTrace.MarkedForever | scripts/bridge-relayer.ts:158-177 | a withdrawal marked on file is never taken up again |
| EvmTrace.PaidAfterRefundIff | scripts/bridge-relayer-core.ts:930-937 | the exact condition: a refunded withdrawal may still be paid by some continuation if and only if its mark is not on file |
| EvmRelayer.FailedCancelScan | scripts/bridge-relayer-core.ts:1193-1216 | a failed TimelockCancelled scan still changes the record exactly when the entry read as cancelled and could be re-read |
| EvmRelayer.FailedCancelScanMayRecord | scripts/bridge-relayer-core.ts:1193-1216 | so a failed scan can be followed by a record: a refund candidate, or an ambiguous one when the second read differs |
| EvmRelayer.ClassIsSound | scripts/bridge-relayer-core.ts:348-357 | a class is justified by the payment or the bound timelock entry it was drawn from |
| EvmRelayer.Relayer.FindPaid | scripts/bridge-relayer-core.ts:753-761 | returns only a transaction whose receipt was read and verified; any throw is a failed scan |
| EvmRelayer.Relayer.Reconcile | scripts/bridge-relayer-core.ts:747-807 | the class is backed by what was read, and the scan-failed flag is set exactly when a scan failed |
| EvmRelayer.Relayer.IsDeepEnough | scripts/bridge-relayer-core.ts:818-832 | true only with a block and a head that were both read, at the required depth |
| EvmRelayer.Relayer.FulfilPaid | scripts/bridge-relayer-core.ts:849-861 | fulfils a verified payment once deep enough; only acceptance marks it processed and drops its record |
| EvmRelayer.Relayer.PersistQueued | scripts/bridge-relayer-core.ts:712-729 | the record is in memory, and on file unless the write failed |
| EvmRelayer.Relayer.ApplyReconciliation | scripts/bridge-relayer-core.ts:835-897 | one outcome per class with its exact effect on records and processed ids; nothing at all after a failed scan; never a release, report or refund |
| EvmRelayer.Relayer.GuardedRefund | scripts/bridge-relayer-core.ts:903-942 | refunds only on a second proven false, marks it, and leaves the queue alone |
| EvmRelayer.Relayer.HandleFailure | scripts/bridge-relayer-core.ts:948-979 | a read error or a processed id yields neither report nor refund |
| EvmRelayer.Relayer.SubmitRelease | scripts/bridge-relayer-core.ts:1043-1067 | the retry loop never re-sends without a fresh false answer |
| EvmRelayer.Relayer.ClassifyReceipt | scripts/bridge-relayer-core.ts:375-401 | verified exactly when the logs verify; queued only for the one queue event whose entry binds and is open |
| EvmRelayer.Relayer.ProcessEvmWithdrawal | scripts/bridge-relayer-core.ts:986-1119 | exact effect of every outcome on the withdrawal's record and mark, with other steps running at every await; nothing for a queued id; reads only in observation mode; pays, reconciles or refunds when the environment allows it |
| EvmRelayer.Relayer.PollOne | scripts/bridge-relayer-core.ts:1129-1218 | a flagged record is left alone; an entry that no longer binds becomes ambiguous, an executed and provable one is fulfilled; the exact effect of every outcome on that record and its mark |
| EvmRelayer.Relayer.PollCancelled | scripts/bridge-relayer-core.ts:1193-1216 | the outcome is the cancel decision on what was read; after a failed scan a record is written exactly when the entry said cancelled and could be read again |
| EvmRelayer.Relayer.PollQueuedWithdrawals | scripts/bridge-relayer-core.ts:1127-1219 | no flagged record changes, whatever other steps do meanwhile, and the poll releases, reports and refunds nothing |
| EvmRelayer.Relayer.Kill | scripts/bridge-relayer.ts:224-225 | a process killed after any number of its events leaves the files as they were then, and the next process starts from them |
| EvmRelayer.Relayer.Others | scripts/bridge-relayer.ts:807-870 | at an await other steps may do anything the discipline allows them; the step in hand, its record and its mark stay as they are |
| EvmRelayer.Relayer.Operate | scripts/bridge-relayer.ts:807-870 | any schedule of feeds, polls, saves and kills anywhere in them, with steps over other withdrawals coming in at every await, keeps the discipline of the whole trace, over all the processes |
| XrgeRelayer.SubmitFollowsAFalseRead | scripts/bridge-relayer-core.ts:1395-1426 | nothing is released unless the vault has just said, in the same step, that the id is not processed, however the steps of different withdrawals interleave |
| XrgeRelayer.FailureFollowsAReRead | scripts/bridge-relayer-core.ts:1424-1446 | a failure report or refund follows that call's own release and then a second read of false |
| XrgeRelayer.FulfilmentIsSound | scripts/bridge-relayer-core.ts:1368-1392 | every fulfilment names a payout known from its own receipt or as the only matching release in a full scan, at the required depth below a head read in that step |
| XrgeRelayer.OtherStepsKeep | scripts/bridge-relayer.ts:873-930 | a step over one withdrawal leaves the step, the pending payout and the mark of another alone |
| XrgeRelayer.NeverPaidAndRefunded | scripts/bridge-relayer.ts:544-560 | with truthful answers and no release in flight, a withdrawal that was refunded and not taken up again is not paid, over any number of restarts |
| XrgeRelayer.TakenUpOnlyAfterALostMark | scripts/bridge-relayer.ts:550-558 | a refunded withdrawal is taken up again only if a process ended before its mark was on file |
| XrgeRelayer.MarkedForever | scripts/bridge-relayer.ts:158-177 | a withdrawal marked on file is never taken up again |
| XrgeRelayer.PaidAfterRefundIff | scripts/bridge-relayer.ts:550-558 | the exact condition: a refunded withdrawal may still be paid by some continuation if and only if its mark is not on file |
| XrgeRelayer.Relayer.Kill | scripts/bridge-relayer.ts:224-225 | a process killed after any number of its events leaves the file as it was then; the next process loads it and has no pending payouts |
| XrgeRelayer.Relayer.FulfilKnownPayout | scripts/bridge-relayer-core.ts:1368-1392 | accepted: forgotten and processed; otherwise kept pending with the same payout |
| XrgeRelayer.Relayer.FailUnlessLanded | scripts/bridge-relayer-core.ts:1427-1446 | any answer but false leaves everything as it was |
| XrgeRelayer.Relayer.ReconcilePaid | scripts/bridge-relayer-core.ts:1401-1422 | no hit, several hits or a mismatch each give their own outcome and change nothing; the one exact match is fulfilled |
| XrgeRelayer.Relayer.ReleaseAndFulfil | scripts/bridge-relayer-core.ts:1424-1448 | a release that is mined and deep is fulfilled; one that cannot be sent is reported failed |
| XrgeRelayer.Relayer.ProcessXrgeWithdrawal | scripts/bridge-relayer-core.ts:1395-1448 | an unreadable vault changes nothing; a processed id is never released |
| XrgeRelayer.Relayer.HandleFailure | scripts/bridge-relayer.ts:544-560 | without auto-refund nothing is refunded or marked |
| XrgeRelayer.Relayer.Operate | scripts/bridge-relayer.ts:873-930 | any feed, with steps over other withdrawals coming in at every await and kills anywhere, keeps the discipline of the whole trace, over all the processes |
| PagedScan.BlockRangesDescending | scripts/bridge-relayer-core.ts:1283-1295 | throws exactly for a span outside 1..2000; otherwise contiguous pages from newest to oldest, each within the span |
| PagedScan.PagesPartition | scripts/bridge-relayer-core.ts:1283-1295 | every block of the window is in exactly one page and no page leaves the window |
| PagedScan.FetchWithRetry | scripts/bridge-relayer-core.ts:1320-1324 | the page of some attempt, or every allowed attempt failed |
| PagedScan.ScanLogPages | scripts/bridge-relayer-core.ts:1312-1329 | returns every log of the window exactly once, or throws because of the span or because every attempt at some page of the window failed |
| PagedScan.FindVaultReleases | scripts/bridge-relayer-core.ts:1330-1333 | returns every release that carries the id in the window, repeated ones included |
| Words.ConvertBits | sdk/src/address.ts:48-67 | with an unmasked 32-bit accumulator the words still write the same number, shifted by the padding |
| Words.ToWords | packages/chain-readonly/format.ts:32-46 | with a 24-bit mask, the same |
| Words.FromWords | sdk/src/address.ts:91-101 | the bytes are all the whole bytes of the number the words write |
| Words.UnpackingInverts | sdk/src/address.ts:48-101 | unpacking the regrouped bytes gives the bytes back |
| Words.DigitsAreUnique | sdk/src/address.ts:48-67 | digits of a given length are determined by the number they write |
| Bech32m.Polymod | sdk/src/address.ts:23-34 | the nested loops compute the linear checksum state |
| Bech32m.FoldIsLinear | sdk/src/address.ts:23-34 | the checksum state is linear under exclusive or |
| Bech32m.ShiftFacts | sdk/src/address.ts:23-34 | the zero-input step stays below 2^30, sends no non-zero state to zero and only shifts short states |
| Bech32m.ShiftIsInjective | sdk/src/address.ts:23-34 | and is injective on states |
| Bech32m.ChecksumVerifies | sdk/src/address.ts:36-46 | the generated checksum verifies, for every prefix and data |
| Bech32m.OneSubstitutionShows | sdk/src/address.ts:23-46 | word sequences that differ in one place never reach the same state |
| Bech32m.BurstOfSubstitutionsShows | sdk/src/address.ts:23-46 | nor do sequences that differ only within six places in a row |
| Address.HrpExpand | sdk/src/address.ts:15-21 | the loops compute the expanded prefix |
| Address.CreateChecksum | sdk/src/address.ts:36-42 | six words of the checksum state against the Bech32m constant |
| Address.VerifyChecksum | sdk/src/address.ts:44-46 | true exactly when the state is the Bech32m constant |
| Address.Encode | sdk/src/address.ts:69-76 | the text of the unique regrouping of the data and its checksum |
| Address.EncodeReadOnly | packages/chain-readonly/format.ts:48-60 | the same text specification |
| Address.EncodingIsUnique | packages/chain-readonly/format.ts:48-60 | both implementations write the same text |
| Address.Decode | sdk/src/address.ts:78-102 | fails exactly when the split, the characters or the checksum do; otherwise prefix and unpacked payload |
| Address.DecodeInvertsEncode | sdk/src/address.ts:69-102 | decode(encode(hrp, data)) = (hrp, data) exactly for the non-empty prefixes that lower-casing leaves alone, in any script |
| Address.OneSubstitutionIsNoticed | sdk/src/address.ts:78-89 | replacing any one data or checksum character of a valid text by another fails the checksum, at any length |
| Address.SubstitutionIsRejected | sdk/src/address.ts:78-102 | hence decoding refuses it, for ASCII text in any letter case and for any text in lower case |
| Address.BurstIsNoticed | sdk/src/address.ts:78-89 | any changes of a valid text within six characters in a row of the data part, a swap of neighbours included, fail the checksum |
| Address.IsRougeAddress | sdk/src/address.ts:143-151 | the SDK recogniser accepts exactly the decodable texts with the right start and length |
| Address.IsRougeAddressReadOnly | packages/chain-readonly/format.ts:63-71 | the strict recogniser is its pattern and the checksum |
| Address.RecognisersAgree | packages/chain-readonly/format.ts:63-71 | the strict recogniser is the SDK's for lower-case text whose last 1 is the sixth character and whose length is 12 to 96 |
| Address.RecognisersDisagree | sdk/src/address.ts:143-151 | a text with the prefix part rouge1 and a line break, in lower case, that the SDK accepts and the read-only package refuses |
| Marketplace.StepKeepsInv | contracts/nft_marketplace/src/lib.rs:154-210 | the token index always points to an existing listing of that same token, and ids are fresh |
| Marketplace.RoyaltyIsAPart | contracts/nft_marketplace/src/lib.rs:325-328 | up to 10000 basis points the 64-bit royalty is floor(price * bps / 10000) and never more than the price |
| Marketplace.ReceiptsAddUp | contracts/nft_marketplace/src/lib.rs:325-338 | royalty and proceeds together are exactly the price |
| Marketplace.FundsAreConserved | contracts/nft_marketplace/src/lib.rs:309-343 | a call changes the contract's own balance by exactly what it pays to the contract itself, so leaves it alone if and only if it pays itself nothing |
| Marketplace.RoyaltyToItselfStays | contracts/nft_marketplace/src/lib.rs:325-338 | a sale whose royalty recipient is the contract leaves exactly the royalty in it |
| Marketplace.SomeRoyaltyStays | contracts/nft_marketplace/src/lib.rs:325-338 | and there are such sales, from states that keep the invariant |
| Marketplace.FundsOverRuns | core/vm/src/host.rs:181-206 | over every run the balance grows by exactly the payouts made to the contract itself |
| Marketplace.EscrowStep | contracts/nft_marketplace/src/lib.rs:274-360 | an escrowed NFT stays escrowed or leaves in one of the two allowed ways |
| Marketplace.EscrowOverRuns | contracts/nft_marketplace/src/lib.rs:274-360 | the same over every run |
| Marketplace.SellersAreProtected | contracts/nft_marketplace/src/lib.rs:274-360 | a seller who lists and then deposits, undisturbed, sees the NFT leave only by their own cancel or a full-price sale paid to the royalty recipient and them |
| MarketContract.RecordReadsBack | contracts/nft_marketplace/src/lib.rs:179-189 | a stored listing record reads back as the listing |
| MarketContract.TokenKeysDiffer | contracts/nft_marketplace/src/lib.rs:157-162 | token keys of different NFTs differ |
| MarketContract.KeysApart | contracts/nft_marketplace/src/lib.rs:148-162 | listing keys, token keys and the counter key never collide |
| MarketContract.Market.TryLoad | contracts/nft_marketplace/src/lib.rs:179-189 | loads exactly the listings of the abstract table |
| MarketContract.Market.Current | contracts/nft_marketplace/src/lib.rs:196-200 | true exactly for the NFT's current listing |
| MarketContract.Market.DeleteListing | contracts/nft_marketplace/src/lib.rs:202-210 | removes the listing, and the index entry only if it is the current one |
| MarketContract.Market.List | contracts/nft_marketplace/src/lib.rs:274-306 | the byte writes implement the abstract step; a failed check changes nothing |
| MarketContract.Market.Buy | contracts/nft_marketplace/src/lib.rs:309-343 | the same for a purchase |
| MarketContract.Market.Cancel | contracts/nft_marketplace/src/lib.rs:347-360 | the same for a cancel: the NFT goes back only for the current listing |
| SignIn.FieldsAreOneLine | sdk/src/message-signing.ts:195-214 | a field set without a field error has no line break in any field but perhaps the address, and no empty statement |
| SignIn.CreateSignInMessage | sdk/src/message-signing.ts:238-259 | the canonical text exactly for valid fields |
| SignIn.SplitInvertsJoin | sdk/src/message-signing.ts:258-269 | splitting joined one-line texts gives them back |
| SignIn.LinesReadBack | sdk/src/message-signing.ts:238-316 | reading the lines of a field set gives it back, absent and empty resources told apart |
| SignIn.ParseLines | sdk/src/message-signing.ts:269-316 | the cursor reader is the line specification |
| SignIn.ParseSignInMessage | sdk/src/message-signing.ts:266-323 | returns fields exactly for the canonical text of valid fields that the reader finds |
| SignIn.ParseInvertsCreate | sdk/src/message-signing.ts:238-323 | parse(create(f)) = f exactly when the text fits in 16384 and the address is one line |
| SignIn.RougeSignInsReadBack | sdk/src/message-signing.ts:238-323 | in particular for every address whose prefix part is exactly rouge |
| SignIn.BrokenFieldsAreNotReadBack | sdk/src/message-signing.ts:195-323 | a valid field set whose address holds a line break is not read back |
| SignIn.TextsAreDistinct | sdk/src/message-signing.ts:238-323 | no two valid field sets with one-line addresses share a text, whatever its length |
| MessageSigning.SigningBytesAreInjective | sdk/src/message-signing.ts:119-126 | different messages are signed as different bytes |
| MessageSigning.TextMessagesAreInjective | sdk/src/message-signing.ts:106-126 | different well-formed texts too |
| MessageSigning.NeverCanonicalBytes | sdk/src/message-signing.ts:119-126 | signed message bytes are never a canonical transaction, header or certificate |
| Money.XrgeToQuanta | sdk/src/contracts.ts:135-157 | trimmed and without underscores, refused unless an amount in range; otherwise exactly its value times 10^9 |
| Money.StripIsExact | sdk/src/contracts.ts:150-151 | stripping zeros that only add precision changes no value |
| Money.AcceptedIffWhole | sdk/src/contracts.ts:135-157 | a non-zero amount is accepted exactly when it is a whole number of quanta and its scale is not below -1000 |
| Money.ZeroIsAcceptedIff | sdk/src/contracts.ts:150-153 | zero is accepted exactly when its scale exceeds its digit count by at most nine |
| Money.SomeZeroIsRefused | sdk/src/contracts.ts:150-153 | some writings of zero are refused: 0e-11 is an amount worth exactly zero, and throws |
| Money.FormattedIsExact | sdk/src/contracts.ts:163-170 | the text of q quanta is an amount worth exactly q |
| Money.QuantaRoundTrip | sdk/src/contracts.ts:135-170 | converting the text of q quanta gives q back for every q that is not negative, and throws for the others |
| Deposits.Watcher.RetryPending | scripts/bridge-relayer.ts:962-965 | retrying loses no key |
| Deposits.Watcher.Scan | scripts/bridge-relayer.ts:994-1025 | exactly the supported deposits of the range, or a throw |
| Deposits.Watcher.ClaimFound | scripts/bridge-relayer.ts:1030-1034 | gets exactly as far as the stops and answers at the ticks it reads let it, and exactly those deposits become known; a stop or throw lies within the call |
| Deposits.Watcher.ClaimAndAdvance | scripts/bridge-relayer.ts:1030-1039 | if all was covered before, all is covered after exactly when the loop threw or every deposit it left out was known; otherwise a stop was noticed during the call |
| Deposits.Watcher.ProcessDeposits | scripts/bridge-relayer.ts:957-1043 | the same for a whole poll over all deposits from the cursor on; a poll alone does not move the cursor back, and advances it when nothing fails |
| Deposits.CursorAdvances | scripts/bridge-relayer.ts:1036-1039 | advancing past a fully claimed range keeps every supported deposit up to the cursor known |
| Deposits.CoversIffCaught | scripts/bridge-relayer.ts:1030-1039 | with the cursor over all that was found, everything is covered if and only if the loop left out nothing new |
| Deposits.RunsToTheEnd | scripts/bridge-relayer.ts:1030-1034 | a loop that meets no stop goes through all deposits or throws |
| Deposits.ShutdownLosesADeposit | scripts/bridge-relayer.ts:1030-1039 | one watched deposit and a stop at the loop's first look: the cursor passes it, in memory and on disk |
| Deposits.Watcher.Operate | scripts/bridge-relayer.ts:938-1043 | over any schedule of polls one after another, kills and saves, nothing is missed if no claim loop left out a new deposit, which takes a stop noticed within the run |
| DepositPolls.AlwaysCovered | scripts/bridge-relayer.ts:938-1043 | in every run of polls that overlap at any await, with saves and kills between any two steps: if no poll was cut short with a deposit left out, every watched deposit up to the cursor is claimed or pending, in memory and on disk |
| DepositPolls.StepKeepsCovered | scripts/bridge-relayer.ts:938-1043 | no step of any poll, no save and no restart from disk breaks this, except a poll that ends short with a new deposit left out |
| DepositPolls.FinishCoversIff | scripts/bridge-relayer.ts:1036-1039 | after a poll moved the cursor, everything is covered if and only if it left out nothing new, whatever the other polls did |
| DepositPolls.LossNeedsAStop | scripts/bridge-relayer.ts:1030-1034 | a poll leaves a deposit out only once a shutdown began |
| DepositPolls.FilingKeepsTidyIff | scripts/bridge-relayer.ts:938-955 | filing an answer keeps claimed and pending disjoint if and only if it is a success or the deposit is not claimed already |
| DepositPolls.TidyWhenAlone | scripts/bridge-relayer.ts:938-1034 | if no claim is sent for a deposit that is claimed or whose claim is in flight, no deposit is ever claimed and pending, in memory or on disk |
| DepositPolls.BreaksIffNotSolo | scripts/bridge-relayer.ts:938-955 | the exact condition: the claims in flight can break that if and only if one is for a claimed deposit or two are for one deposit |
| DepositPolls.OverlapBreaksDisjointness | scripts/bridge-relayer.ts:938-1034 | the failing run: two polls claim one deposit, one succeeds and one times out |
| DepositPolls.CursorMovesBackIff | scripts/bridge-relayer.ts:1036-1039 | the cursor moves back exactly when a poll ends that holds an older block |
| DepositPolls.CursorOverRuns | scripts/bridge-relayer.ts:1036-1039 | without such a poll it never moves back |
| DepositPolls.OverlapMovesTheCursorBack | scripts/bridge-relayer.ts:1036-1039 | the failing run: two overlapping polls, the one with the older block ending last |
| DepositPolls.AlonePollsKeepBoth | scripts/bridge-relayer.ts:1113-1120 | polls that do not overlap keep both: disjoint sets and a cursor that moves back only at a restart |

## Left out

- BTC: eviction from the mempool, loss or corruption of the state file, the regular expressions that classify broadcast answers, log texts.
- BtcRelayer.Relayer.Run: a save that throws is modelled for one withdrawal at a time, in `BtcSaves`.
- BtcPlanner.PlanPayout: fee rates are real numbers, and products with them are exact.
- EvmRelayer.Relayer.PollQueuedWithdrawals: a record that another step holds is passed over, although the code does not look; `EvmTrace.OverlappingPollsDropAFlag` shows what that excludes.
- EVM: state files that cannot be read at a start, alerts that throw, nonce bookkeeping, pacing and log text.
- EvmRelayer.Relayer.ProcessEvmWithdrawal: addresses and ids are compared after lower-casing, so they are modelled as already lower-cased values; address checksums are not part of this model.
- EvmTrace.NeverPaidAndRefunded: the id hash is injective by its type, and the contract answers truthfully with no release in flight unseen.
- XRGE: the text test that recognises a confirmations error, and amounts that are not natural numbers.
- JSON: error messages and positions.
- Encoding.FormatF64: floats are given by their shortest digits and exponent; how a text becomes a float is a parameter.
- Finality: signature checking is a parameter, heights are natural numbers, and fetching blocks and comparing nodes are not part of this model.
- Address.Decode: lower-casing is any function that treats ASCII letters and data characters as `toLowerCase` does; address derivation from a public key needs SHA-256 and is not part of this model.
- Words.ConvertBits: only the widths the code uses (8 to 5 with padding).
- Marketplace: argument parsing, events, the read-only views, and the wrap of the listing counter after 2^64 listings.
- MarketContract.Market.Buy: the host's answers (royalty, recipient, whether transfers succeed) are arguments; a transfer of the NFT succeeds exactly when the contract holds it, and a transfer of a negative amount fails.
- SignIn.ParseSignInMessage: whether a well-shaped time is a real date is a parameter; verification of a sign-in against a server nonce is not part of this model.
- Money.XrgeToQuanta: a number is given as the text `String` makes of it, and exponents are exact integers.
- Deposits.Watcher.ProcessDeposits: a poll alone; polls that overlap and a save inside a poll are in `DepositPolls`. State writes are all or nothing, and the chain below the safe head does not change.
- Deposits.Watcher.Operate: polls one after another; `DepositPolls.AlwaysCovered` is the statement for polls that overlap.
- Observation mode of the XRGE relayer and of the deposit watcher, preflight checks, the HD deposit pool, statistics, SDK clients, web apps, other contracts: plumbing or easier than what is here.
