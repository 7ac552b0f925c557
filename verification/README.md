# Verified model of the portal

This project models the state-changing logic of a game-realm web portal in Dafny 4.11 and proves
what it promises: order fulfilment that survives crashes, the passkey registration decoder, Stripe
payments and their reversals, the credit ledger with everything that moves credits, the realm
configuration rewriter, master-account identities and SRP6 verifiers.

`dafny verify dfyconfig.toml` checks everything.

## How it is built

| file | what it holds |
|---|---|
| Common.dfy | `Option`, bytes and powers of 256 |
| DeliveryPlan.dfy | what one order turns into: consolidated items, stacks, mails, keyed steps |
| Fulfilment.dfy | the delivery protocol as a state machine, one SQL statement or transaction a step, with a program counter per worker |
| FulfilmentBounds.dfy | what holds with no hypotheses: bounded command runs, terminal states, refunds |
| FulfilmentSafety.dfy | delivered orders in every interleaving with one worker per realm; refunded orders for any number of workers |
| FulfilmentManyWorkers.dfy | delivered orders for any number of workers |
| FulfilmentExactlyOnce.dfy | how often a delivered order's commands were applied, with an honest realm and with lost replies |
| FulfilmentRuns.dfy | progress: what an undisturbed pass does |
| FulfilmentReconcile.dfy | which reconciliations keep exactly-once, exactly |
| FulfilmentRefunds.dfy | which reconciliations keep refunded orders free of completed steps, exactly; staff who go by the order's status |
| FulfilmentRefundGuard.dfy | what the rows tell a refund, over whole runs |
| FulfilmentCounterexamples.dfy | runs from the empty portal that break a guarantee when one hypothesis is dropped and all others hold |
| FulfilmentPortal.dfy | the tables as a class, a method per statement, and the worker's own code over them |
| Cbor.dfy, CborProofs.dfy, CborDecoder.dfy, CborLaws.dfy | wire format, values and limits; decoder and format are inverse; the cursor-moving decoder; which bytes denote which value |
| Attestation.dfy | "none" attestation and authenticator data |
| CreditLedger.dfy | wallets, ledger rows and the statements on them |
| Reversals.dfy, Payments.dfy | refunds and disputes of one payment; webhook handlers that stop anywhere |
| Grants.dfy | gift codes, event places and rewards, daily and vote rewards |
| Books.dfy | all credit transactions together, fulfilment included |
| CreditStore.dfy | the credit transactions as methods on the tables |
| ConfigText.dfy, RealmAgent.dfy, RealmSettings.dfy | configuration lines, the in-place rewriter, requests and reports |
| Identity.dfy | identities with one primary account, under interleaved requests |
| Srp.dfy | byte-order loops and the comparison loop of SRP6 verifiers |

Each protocol is a total step function over a state of maps; a step whose actor is not at the right
statement changes nothing, so a theorem over all action sequences is a theorem over all
interleavings. What the outside world does (a statement that fails, a commit whose answer is lost, a
realm that applies a command or not, a crash) is a parameter of the action. The classes hold the same
tables as fields; every method equates its new state with the step function and
says on the tables what changed and when.

What the proofs found in the code, each with its exact condition or a run that shows it:

- Reconciling a step does not look at the step's status, so it can hit a command in flight: an order
  can be delivered with a command applied twice (`AppliedTwiceIsReachable`). A truthful reconciliation
  keeps exactly-once, whatever follows, exactly when it does not put back a step whose command a live
  worker holds (`ReconciliationKeepsExactlyOnceIff`).
- A reply that is lost after the realm applied the command (the client gives up after 12 seconds,
  `internal/soap/client.go:20`) is recorded as a fault, which a plain staff retry sends again: one worker,
  no crash, no reconciliation, and the command is applied twice (`LostReplyIsReachable`), although
  `internal/web/delivery.go:193-196` means to rule this out. A delivered step was applied once, plus once
  for every applied command that stood recorded as a fault; so exactly once if and only if there was none
  (`DeliveredOncePlusDenied`).
- A refund counts only completed steps: it can miss a command the realm applied
  (`RefundedThoughAppliedIsReachable`), and no row tells (`RefundGuardCannotTell`); the rows rule it out
  exactly when no step of the order is executing (`RefundGuardSufficesIffNothingExecutes`).
- Putting back a step of an order a worker drives makes the order refundable, and the worker can then
  complete a step of a refunded order (`CompletedThoughRefundedIsReachable`). With one worker per realm a
  reconciliation keeps refunded orders free of completed steps, whatever follows, exactly when it is no such
  put-back, or another step of the order is completed, or the worker can complete no further step
  (`ReconciliationKeepsRefundsCleanIff`). A second server of the realm breaks it without any
  reconciliation, by resetting the order under the first (`CompletedBehindAResetIsReachable`).
- A merged bundle quantity is right exactly when the true total fits 32 bits (`ConsolidationKeepsTotals`).
- CBOR unsigned integers from 2^63 on come out negative (`UnsignedKeepsItsValueIff`).
- A won dispute gives back everything that was ever taken, an earlier refund included. Opening and winning
  a dispute restores the balance exactly when nothing was refunded before, or the player no longer had
  what the dispute wanted to take, or everything had been refunded and giving it back does not fit the
  column (`WonDisputeRestoresIff`). The status of a payment after refunds is
  that of the last event, not of the largest (`StatusIsTheLastEvents`, `StatusDependsOnTheOrder`).
- A registration's referral bonus agrees with the ledger exactly when its ledger row, whose failure is
  ignored, was written (`SignUpConservesIff`). Over any run every balance is its opening plus its ledger
  rows plus the bonuses whose rows were lost (`LedgerConservation`).
- Staff marking attendance overfill a full event exactly when they activate an inactive registration
  (`StaffMarkOverfillsIff`).
- Rewriting a configuration twice equals rewriting it once exactly when no kept line loses a second
  carriage return (`OverwriteLaw`); reading the file back is right for every text (`ReplacedReadsBack`).
  A doubled carriage return before a line feed is one way to fail; a carriage return at the very end of
  the file when keys are appended is another.

Conventions: SQL runs in strict mode, so a value outside a column's range fails the statement and its
transaction is rolled back. Order status `failed`, which no modelled statement sets, is kept in the guards that name it.
`stackable` is read when the plan is loaded. Wallet balances are unsigned 32-bit, ledger amounts
signed 32-bit, item quantities unsigned 32-bit with wrap-around, CBOR arguments unsigned 64-bit.
An application stands recorded as a fault until staff mark its step completed for it (`denied` in `History`).
`hide` statements in proofs only keep definitions out of the solver's way.

## Model

| member | source | states |
|---|---|---|
| DeliveryPlan.ConsolidateBundleItems | internal/web/merchandising.go:271-282 | the in-place merge loop: one row per item id named and no other, in order of first appearance, its quantity the true total modulo 2^32 |
| DeliveryPlan.AccumulatedIsTotalMod32 | internal/web/merchandising.go:275 | the accumulator differs from the true total by a multiple of 2^32 |
| DeliveryPlan.ConsolidationKeepsTotals | internal/web/merchandising.go:271-282 | merged ids are unique, and every item keeps its true total if and only if every true total fits 32 bits |
| DeliveryPlan.SplitItemStacks | internal/web/delivery.go:324-343 | the decrementing loop computes the specified split: the fewest stacks of the item that hold the quantity, none above its stack size, a stackable below 1 read as 1, and none for quantity 0 |
| DeliveryPlan.SplitShape | internal/web/delivery.go:324-343 | every stack is full except the last, each holds 1 to the maximum, they add up to the quantity, and there are exactly ceil(quantity / maximum) of them |
| DeliveryPlan.ChunkMailStacks | internal/web/delivery.go:345-355 | the appending loop computes the specified chunks |
| DeliveryPlan.ChunkShape | internal/web/delivery.go:345-355 | chunks concatenate to the input, hold 1 to 12 stacks, all but the last exactly 12, and there are ceil(n / 12) |
| DeliveryPlan.ItemsKeyInjective | internal/web/delivery.go:136 | mails with different numbers have different step keys, however many digits |
| DeliveryPlan.ReadAttachments | internal/web/delivery.go:108-129 | reading the order rows: fails exactly when an item is not in the world's table, otherwise all stacks in row order |
| DeliveryPlan.MailCommands | internal/web/delivery.go:134-140 | one item mail step per chunk, numbered from 1 |
| DeliveryPlan.TailCommands | internal/web/delivery.go:141-171 | fails exactly for a service other than race_change and faction_change; otherwise the level, money, service and training steps asked for, each exactly once, with all the gold in copper |
| DeliveryPlan.BuildPlan | internal/web/delivery.go:103-171 | none exactly when an item or the service is unknown; otherwise it mails every item in the ordered quantity and runs every other command exactly as often as the order asks |
| DeliveryPlan.PlanKeysDistinct | internal/web/delivery.go:133-164 | no two steps of one plan share a key, so none shares a row |
| DeliveryPlan.PlanKeysReconcilable | internal/web/delivery.go:618-628 | every key a plan creates is accepted by the reconciliation endpoint |
| DeliveryPlan.PlanMailsWhatWasOrdered | internal/web/delivery.go:122-140 | split and chunked mails carry exactly the ordered quantity of every item |
| DeliveryPlan.PlanRunsWhatWasOrdered | internal/web/delivery.go:141-171 | a plan mails gold * 10000 copper in all; it sets the level once and to the ordered one when it is above 0, runs the race or faction change exactly for the service of that name, and the training exactly for level 80 |
| DeliveryPlan.PlanIsRefusedIff | internal/web/delivery.go:117-121 | there is no plan if and only if an item is not in the world's table or the service is a third one |
| DeliveryPlan.PlanOrder | internal/web/delivery.go:133-171 | mails first, numbered from 1, then level, money, service, training; each step has the kind and the key of its command |
| DeliveryPlan.PlanMailsFewFullStacks | internal/web/delivery.go:324-355 | every mailed stack fits the world's stack size, every item takes the fewest stacks that hold it, every mail has 1 to 12 of them and all but the last exactly 12 |
| DeliveryPlan.ItemsKeyReadsBack | internal/web/delivery.go:136 | a mail's key is items- and its number in two digits at least, and reads back as the number |
| FulfilmentBounds.BoundedRuns | internal/web/delivery.go:193-231 | in every run, with any workers, crashes and staff actions, a step's command runs at most 1 + recorded faults + staff retries |
| FulfilmentBounds.TerminalStatesAreFinal | internal/web/delivery.go:44 | from any state and through any run a delivered order stays delivered and a refunded one refunded, with the credits returned unchanged |
| FulfilmentBounds.RefundedExactlyOnce | internal/web/delivery.go:545-571 | in every run the credits an order returned are its total if it is refunded and nothing otherwise |
| FulfilmentBounds.OrderStep | internal/web/delivery.go:451-689 | what any single statement can do to any order: its data are fixed, terminal states are kept, credits move only on refund |
| FulfilmentBounds.ResetComesFirst | internal/web/delivery.go:42-44 | nothing but its reset of interrupted orders, or a crash, takes a starting server from its first statement |
| FulfilmentBounds.ServersComeAndGo | internal/web/delivery.go:42-44 | a starting server changes nothing but its own worker, and crashing at once undoes it |
| FulfilmentSafety.DeliveredMeansEveryStepCompleted | internal/web/delivery.go:155-172 | with one live worker per realm and reconciliation at any moment, a delivered order has every step of the plan it was delivered with completed |
| FulfilmentSafety.RefundedMeansNothingCompleted | internal/web/delivery.go:545-571 | for any number of workers: while no step of an order a live worker drives is put back, and no starting server resets such an order, a refunded order never has a completed step; steps may be marked completed at any time |
| FulfilmentSafety.DisciplineSpares | internal/web/delivery.go:42-44 | with one live worker per realm no starting server resets an order a live worker drives |
| FulfilmentSafety.RefundStep | internal/web/delivery.go:42-234 | every such statement of every actor keeps: an order somebody drives is delivering or has a completed step, and a refunded order has none |
| FulfilmentManyWorkers.DeliveredByAnyOfManyIsCompleted | internal/web/delivery.go:155-172 | for any number of workers, while no step of an order a live worker drives is put back: a delivered order has every step of the plan it was delivered with completed |
| FulfilmentSafety.SafeStep | internal/web/delivery.go:42-234 | every statement of every actor keeps the safety invariant under one worker per realm |
| FulfilmentExactlyOnce.DeliveredExactlyOnce | internal/web/delivery.go:62-178 | for any number of workers and crashes, with an honest realm, truthful staff who put back no command in flight and a fixed stack table: a delivered order has had every planned command applied exactly once and nothing else; the player received exactly the items ordered, and the level, gold, service and training exactly as often as the order asks |
| FulfilmentExactlyOnce.DeliveredOncePlusDenied | internal/web/delivery.go:193-229 | the same when an applied command may be reported as an error: every planned command of a delivered order was applied once plus once for every application standing recorded as a fault, hence exactly once if and only if there is none |
| FulfilmentExactlyOnce.OnceStep | internal/web/delivery.go:197-234 | every statement of every actor keeps: a step's command was applied as often as faults on record deny it, once more when the row is completed, perhaps once more while it is executing |
| FulfilmentRuns.PendingOrderCanBeDelivered | internal/web/delivery.go:62-178 | from any state, a pending order whose plan loads and has no executing step can be claimed and delivered by truthful actions alone, each unfinished command being applied once and completed ones skipped |
| FulfilmentRuns.PassDelivers | internal/web/delivery.go:155-172 | an undisturbed pass from any point of the plan ends in delivered, each unfinished command being applied once |
| FulfilmentRuns.UnreadyPassSendsNothing | internal/web/delivery.go:82-150 | after a load with a character that is not ready, an unknown item or an unknown service, whatever everybody does, the worker's statements touch no step and send no command until it claims again |
| FulfilmentReconcile.ReconciliationKeepsExactlyOnceIff | internal/web/delivery.go:662-678 | after any run with an honest realm: a truthful reconciliation keeps exactly-once in every continuation that keeps the rules if and only if it does not put back a step whose command a live worker holds |
| FulfilmentReconcile.ReconciliationKeepsTheRecordIff | internal/web/delivery.go:662-678 | when replies can be lost: it keeps every account of applied commands right in every such continuation if and only if, besides, it does not reconcile a step a live worker has yet to send |
| FulfilmentRefunds.ReconciliationKeepsRefundsCleanIff | internal/web/delivery.go:662-678 | after any run with one worker per realm and no put-back under a driver: a reconciliation keeps refunded orders free of completed steps in every such continuation if and only if it is not an accepted put-back under a driver, or another step of the order is completed, or by its next statement and the rows that driver can complete no further step |
| FulfilmentRefunds.IdleOrdersAreUnattended | internal/web/delivery.go:630-689 | with one worker per realm, staff who only reconcile steps of orders not reading delivering never touch an order a live worker drives |
| FulfilmentRefundGuard.RefundGuardSufficesIffNothingExecutes | internal/web/delivery.go:549-556 | for every faithful run to a refundable order: every faithful run to the same rows had the realm apply nothing of it if and only if none of its steps is executing |
| FulfilmentRefundGuard.ShadowRun | internal/web/delivery.go:211-229 | for every faithful run that leaves a step executing and unapplied there is a faithful run to the same rows with its command applied |
| FulfilmentCounterexamples.RetryInFlightCanApplyTwice | internal/web/delivery.go:662-678 | from any state about to send, one truthful reconciliation of the step in flight and then only honest replies, one live worker and no reconciliation lead to a delivered order with the command applied twice |
| FulfilmentCounterexamples.AppliedTwiceIsReachable | internal/web/delivery.go:662-678 | for every order with something to deliver such a run exists from the empty portal, that reconciliation being the only thing out of place in it |
| FulfilmentCounterexamples.LostReplyIsReachable | internal/web/delivery.go:218-229 | for every order with something to deliver a run from the empty portal with one server, no crash and no reconciliation, in which an applied command is reported as an error, ends with the order delivered and the command applied twice |
| FulfilmentCounterexamples.LostReplyCanApplyTwice | internal/web/delivery.go:218-229 | so it does from any state about to send |
| FulfilmentCounterexamples.TwoWorkersCanDeliverAWaitingStep | internal/web/delivery.go:172 | with two workers of one realm, an honest realm and a wrong reconciliation, an order can read delivered with a step of its plan waiting |
| FulfilmentCounterexamples.WaitingDeliveryIsReachable | internal/web/delivery.go:172 | for every order with something to deliver such a run exists from the empty portal |
| FulfilmentCounterexamples.RefundCanMissAnAppliedCommand | internal/web/delivery.go:553-556 | from any state about to send with nothing completed: a crash after the realm applied the command leaves an executing step, which does not stop the refund; everyone is truthful, one server at a time, nothing is reconciled |
| FulfilmentCounterexamples.RefundGuardCannotTell | internal/web/delivery.go:549-556 | for every order with something to deliver, two runs from the empty portal within every hypothesis of the safety theorems end in the same rows with the order refundable, one with its first command applied and one without |
| FulfilmentCounterexamples.RefundedThoughAppliedIsReachable | internal/web/delivery.go:553-556 | so a run within every hypothesis, nothing reconciled, ends with the order refunded and its first command applied |
| FulfilmentCounterexamples.ReconcileInFlightCanCompleteARefundedOrder | internal/web/delivery.go:662-678 | one truthful put-back of an unattended step of an order its worker drives, and nothing else out of place, lets the worker complete a step of a refunded order |
| FulfilmentCounterexamples.CompletedThoughRefundedIsReachable | internal/web/delivery.go:662-678 | for every order with something to deliver such a run exists from the empty portal |
| FulfilmentCounterexamples.SecondServerCompletesARefundedOrder | internal/web/delivery.go:44 | from any state about to send with nothing completed: a second server's reset and a refund, and the first server completes a step of the refunded order, with an honest realm and nothing reconciled |
| FulfilmentCounterexamples.CompletedBehindAResetIsReachable | internal/web/delivery.go:44 | for every order with something to deliver such a run exists from the empty portal |
| FulfilmentPortal.Portal.ResetInterrupted | internal/web/delivery.go:44 | delivering orders of the realm go to review, no other row changes, and the worker waits for orders whether or not the statement was written |
| FulfilmentPortal.Portal.ClaimOrder | internal/web/delivery.go:62-80 | one pending order of the realm becomes delivering and the worker holds it; a lost commit leaves it delivering with nobody driving it; every other case changes nothing |
| FulfilmentPortal.Portal.LoadPlan | internal/web/delivery.go:82-164 | a character that is not ready, an unknown item or an unknown service sends the worker to review; otherwise it stands at the first step, or at the final update when there is none, of a plan that mails what was ordered and runs every other command as often as asked |
| FulfilmentPortal.Portal.InsertStep | internal/web/delivery.go:198-200 | a missing row is made waiting unless the statement is refused, an existing one is left alone, and anything but success goes to review |
| FulfilmentPortal.Portal.SelectStep | internal/web/delivery.go:201-210 | a completed row is skipped, an executing, missing or unreadable one goes to review, any other goes on to the compare-and-set; no row changes |
| FulfilmentPortal.Portal.StartStep | internal/web/delivery.go:211-217 | only a waiting or faulted row becomes executing, and only then, acknowledged, is the command sent; otherwise review |
| FulfilmentPortal.Portal.SendCommand | internal/web/delivery.go:218 | the step's command is run once more, and applied once more exactly when the realm applies it; no row changes |
| FulfilmentPortal.Portal.RecordFault | internal/web/delivery.go:222-229 | an executing row becomes faulted unless the statement is refused, and the worker goes to review |
| FulfilmentPortal.Portal.RecordCompletion | internal/web/delivery.go:230-233 | an executing row becomes completed unless the statement is refused, rows affected unchecked; acknowledged, the worker goes on to the next step or the final update, otherwise to review |
| FulfilmentPortal.Portal.FinishOrder | internal/web/delivery.go:172-177 | a delivering order becomes delivered unless the statement is refused, and the worker waits for the next |
| FulfilmentPortal.Portal.ReviewOrder | internal/web/delivery.go:369-376 | a delivering order goes to review unless the statement is refused, and the worker waits for the next |
| FulfilmentPortal.Portal.RetryOrder | internal/web/delivery.go:462 | an order of the realm in review or failed becomes pending, and nothing else changes |
| FulfilmentPortal.Portal.RefundOrder | internal/web/delivery.go:545-571 | succeeds exactly for a pending, reviewed or failed order of the realm with no completed step; it becomes refunded and its total is returned |
| FulfilmentPortal.Portal.ResolveStep | internal/web/delivery.go:662-678 | succeeds exactly for an existing step of an order that is neither delivered nor refunded; the step becomes completed or waiting as asked, and the order pending |
| FulfilmentPortal.Portal.RunOrderStep | internal/web/delivery.go:197-234 | the statements of one step in order, as a run of the protocol; it ends at the next step or in review, touches no other row, and with good outcomes completes any step that is not executing |
| FulfilmentPortal.Portal.FulfillOrder | internal/web/delivery.go:82-178 | the worker's whole pass is a run of its own statements and ends idle, whatever fails; an order that cannot be planned has its steps and their history left alone and goes to review; when every outcome is good and no planned step is executing it ends with the order delivered and every planned step completed |
| Cbor.BigEndianRoundTrip | internal/web/cbor.go:101-136 | bytes to number and back, and the number fits the bytes |
| Cbor.ToBigEndianRoundTrip | internal/web/cbor.go:101-136 | number to bytes and back, for numbers that fit |
| CborDecoder.Decoder.Length | internal/web/cbor.go:101-136 | reads exactly the argument the additional bits announce, moves the cursor past it and never past the end |
| CborDecoder.Decoder.Value | internal/web/cbor.go:19-99 | returns the meaning of the item the wire format has at the cursor, or fails exactly when there is none within the limits; the cursor moves strictly forward, to the item's end |
| CborDecoder.Decoder.ArrayItems | internal/web/cbor.go:48-60 | the array loop collects exactly the items the format has, at most 1024 |
| CborDecoder.Decoder.MapEntries | internal/web/cbor.go:61-82 | the map loop: integer or text keys only, later duplicates win, at most 1024 pairs |
| CborDecoder.DecodeCbor | internal/web/cbor.go:13-17 | value and length of the first item, or failure |
| CborDecoder.UnsignedKeepsItsValueIff | internal/web/cbor.go:31-32 | an encoded unsigned integer decodes to itself if and only if it is below 2^63; otherwise to that number minus 2^64 |
| CborProofs.ItemSound | internal/web/cbor.go:19-99 | whatever is decoded at a position is a well-formed item within the limits, and the bytes consumed are its encoding |
| CborProofs.ItemComplete | internal/web/cbor.go:19-99 | whatever well-formed item within the limits lies at a position is decoded there, in any argument widths |
| CborProofs.DecodeAfterEncode | internal/web/cbor.go:13-17 | decoding an encoding followed by anything gives the item and its length if and only if the item is within the limits |
| CborProofs.DecodesIffStartsWith | internal/web/cbor.go:13-17 | decoding yields an item and a length exactly on inputs that start with that item's encoding |
| CborProofs.RejectsIffNothingSupported | internal/web/cbor.go:20-98 | decoding fails exactly on inputs that start with no item within the limits |
| CborLaws.DecodesWhatIsDenoted | internal/web/cbor.go:13-99 | the decoder returns a value and a length if and only if the first bytes denote the value under a grammar of bytes and values alone: head bits, number ranges, 1048576-byte strings, 1024 elements, depth 16, false, true and null at 0xF4 to 0xF7, and a repeated map key having the value it was given last |
| CborLaws.ItemDenotes | internal/web/cbor.go:19-99 | the encoding of every item within the limits denotes its meaning |
| CborLaws.DenotesItem | internal/web/cbor.go:19-99 | whatever bytes denote a value are the encoding of an item within the limits with that meaning |
| CborLaws.EntriesAreLast | internal/web/cbor.go:61-82 | the map of a list of pairs has exactly their keys, each with the value it was given last |
| CborLaws.MostSignificantFirst | internal/web/cbor.go:101-136 | the first byte of an argument weighs most |
| Attestation.LayOutParts | internal/web/passkeys.go:360-369 | every field read from authenticator data of the specified layout is the field laid out |
| Attestation.AnyBytesAreLaidOut | internal/web/passkeys.go:360-369 | any bytes long enough for their own id length are laid out so |
| Attestation.AcceptsExactlyTheLayout | internal/web/passkeys.go:353-380 | a credential is returned if and only if the input starts with a none-attestation object, in any encoding within the limits, around authenticator data for this relying party with the three flags, an id of 16 to 1024 bytes and an ES256 key on the curve, and it is that id, key and counter |
| Attestation.RegistrationRoundTrip | internal/web/passkeys.go:353-380 | any id, counter, AAGUID, flags, coordinates, extensions and trailing bytes, laid out as a browser does, come back unchanged |
| Attestation.FlagsAreMasked | internal/web/passkeys.go:360 | the flags are accepted if and only if masking them with 0x45 leaves 0x45 |
| Attestation.FieldNames | internal/web/passkeys.go:356-359 | the names compared are fmt, none and authData in ASCII |
| CreditLedger.PlainUpdateNeedsARow | internal/web/delivery.go:557-561 | crediting by the plain UPDATE keeps wallets and ledger in agreement if and only if the wallet row exists (or nothing is credited) |
| CreditLedger.GrantPosts | internal/web/gift_codes.go:203-206 | the upsert and its ledger row move the same amount to the same account and nothing else |
| CreditLedger.PostedConserves | internal/web/billing.go:313-314 | a transaction that moves an amount and writes one row saying so changes nobody's difference between balance and opening plus ledger |
| Reversals.PartialReversalExactIff | internal/web/billing.go:364-366 | the partial reversal is the exact ceiling if and only if the 64-bit intermediate does not wrap |
| Reversals.PartialReversalBounded | internal/web/billing.go:364-366 | it never exceeds the credits, wrap or not, and the 32-bit conversion loses nothing |
| Reversals.ReversalCoversTheRefund | internal/web/billing.go:361-366 | for at most a million credits and amounts below 2^43 it is the exact ceiling and what is kept is worth no more than what was left paid |
| Reversals.ReversePosts | internal/web/billing.go:382-405 | a reversal leaves the wallet alone or posts exactly the change of the refunded credits to the recipient |
| Reversals.ReverseKeepsSound | internal/web/billing.go:345-414 | every reversal keeps: the row agrees with the ledger, refunded credits never exceed credits, and refunded or disputed means all of them |
| Reversals.WonDisputeRestoresIff | internal/web/billing.go:382-389 | opening and winning a dispute restores the balance if and only if nothing had been refunded before, or the balance did not cover what was left to take, or everything had been refunded and giving it back overflows the column |
| Reversals.RefundsTakeTheMaximum | internal/web/billing.go:361-404 | any sequence of refund events ends with the maximum of the start and what each event asks for (the exact ceiling for a part, all credits otherwise) if and only if the wallet covers it; the wallet loses exactly what was taken back |
| Reversals.ReversalDoes | internal/web/billing.go:345-414 | what one event does to a payment: a partial refund asks for the ceiling of credits * amount / total unless that product wraps, a full refund, an opened and a lost dispute for all credits, a won one for none; taken back is the larger of that and before, if the wallet covers it, a won dispute gives everything back, and only an overflow of that rolls it back |
| Reversals.RefundsAreConfluent | internal/web/billing.go:361-404 | order and repetition of refund events do not change refunded credits or balance when covered |
| Reversals.StatusIsTheLastEvents | internal/web/billing.go:374-378 | after covered refund events the status is refunded if and only if the last event alone asks for all credits, by the ceiling |
| Reversals.StatusDependsOnTheOrder | internal/web/billing.go:374-378 | two orders of the same events that end in different statuses |
| Payments.CreditKeepsNet | internal/web/billing.go:300-330 | the crediting transaction keeps the payment invariant: at most one crediting row per checkout, ledger rows equal to credits less refunded, rows and unique keys consistent |
| Payments.ReversalKeepsNet | internal/web/billing.go:345-414 | the reversal transaction keeps it |
| Payments.ReversalMoves | internal/web/billing.go:345-414 | a committed reversal moves exactly the change of the refunded credits of its payment and touches no other |
| Payments.NetStep | internal/web/billing.go:256-336 | every step of every handler keeps it: duplicates, concurrent deliveries, crashes between commit and flag |
| Payments.AckStep | internal/web/billing.go:262-269 | every step keeps: an event marked processed has been served |
| Payments.PaidStep | internal/web/billing.go:285-330 | every step keeps: every credited checkout belongs to a paid session of that checkout with an account and 1 to 1000000 credits, and its row holds them |
| Payments.CreditIs | internal/web/billing.go:289-330 | a new event for a new checkout is credited if and only if the columns hold it, by one posting, one payment row and one row for the event; a repeated one changes nothing |
| Payments.RequestRefundIs | internal/web/billing.go:599 | asking for a refund relabels a settled payment that has an intent, and does nothing else |
| Grants.GrantStep | internal/web/gift_codes.go:187-211 | every redemption, reward, claim, vote, registration and staff edit keeps: counters count use rows within the limit and the ledger pays what the once-only rows say |
| Grants.RedeemKeeps | internal/web/gift_codes.go:194-206 | the redemption transaction keeps it |
| Grants.RewardKeeps | internal/web/events.go:557-576 | the event reward transaction keeps it |
| Grants.DailyKeeps | internal/web/dashboard.go:144-157 | the daily reward transaction keeps it |
| Grants.VoteKeeps | internal/web/dashboard.go:224-237 | the vote reward transaction keeps it |
| Grants.PlayersRespectCapacity | internal/web/events.go:369-395 | registering and cancelling never take an event's active count above its capacity or above what it was |
| Grants.StaffMarkOverfillsIff | internal/web/events.go:471 | marking attendance takes a full event over its capacity if and only if it activates an inactive registration |
| Grants.RequestIsDone | internal/web/gift_codes.go:187-211 | for every request: the condition of the tables under which it is granted, the posting and the one row it then writes, and that otherwise, or when the database fails it, nothing changes; codes have 1 to 1000000 credits and 1 to 100000 uses |
| Books.LedgerConservation | internal/web/billing.go:313-314 | after any run of all transactions together, every balance is its opening balance plus its ledger rows plus the bonus of every referral whose row was lost |
| Books.LedgerAgreesIffNothingLost | internal/web/server.go:620-636 | so wallets and ledger agree for every account if and only if no referral row was lost |
| Books.NetPayments | internal/web/billing.go:306-321 | in every run a checkout has at most one crediting row, its rows sum to credits less refunded, within 0 and credits, and to nothing when the payment reads refunded or disputed |
| Books.AcknowledgedPaymentsAreCredited | internal/web/billing.go:263-336 | in every run a processed webhook of a paid checkout names an account and 1 to 1000000 credits, and its checkout is credited by exactly one row |
| Books.CreditedCheckoutsWerePaid | internal/web/billing.go:285-330 | in every run with genuine events whatever was credited for a checkout was credited to the account a paid session of that checkout names, by as much as it names |
| Books.OrdersCostTheirTotalUnlessRefunded | internal/web/delivery.go:545-563 | in every run an order's ledger rows cost its buyer the total, or nothing once it is refunded |
| Books.GrantsAreExactlyOnce | internal/web/gift_codes.go:187-211 | in every run a code's use count is its number of use rows within its limit, credits paid are that many times its value, and an account is paid for a code, event, day or vote exactly what its one row says |
| Books.SecondGrantIsRefused | internal/web/gift_codes.go:194-206 | once granted, a second redemption, reward, claim or vote changes nothing after any further run |
| Books.CapacityHolds | internal/web/events.go:369-395 | over any run without staff edits of the event its active count stays within capacity or what it started with |
| Books.SignUpConservesIff | internal/web/server.go:620-636 | a registration keeps wallets and ledger in agreement if and only if there is no referrer or the referrer's ledger row was written |
| Books.OrdersRunOnTheirOwn | internal/web/server.go:1104-1117 | the orders within the books evolve as a run of the fulfilment protocol |
| Books.TransactionIsDone | internal/web/server.go:1080-1117 | what every transaction does and when: a purchase debits, opens a pending order and names its buyer exactly when the wallet covers the total; a refund credits the buyer exactly when the order may be refunded; staff credits are 1 to 1000000; each only where the columns hold it, and nothing otherwise |
| Books.SignUpIsDone | internal/web/server.go:598-636 | a new wallet starts with the starting credits, 10 more with a referrer, who must be another account with a code and gets 25, in the wallet always and in the ledger if that row is written; otherwise nothing changes |
| Books.BuyKeeps | internal/web/server.go:1080-1117 | the purchase transaction keeps the invariant of the books |
| Books.RefundKeeps | internal/web/delivery.go:545-563 | the order refund keeps it, the wallet row existing because the purchase needed it |
| Books.BooksStep | internal/store/store.go:167-203 | every transaction of every subsystem, staff grants and sign-in included, keeps the invariant of the books, and takes a balance away from its ledger by exactly the referral bonus whose row was lost |
| CreditStore.Store.InsertWebhook | internal/web/billing.go:257-262 | recording a delivery is the specified step; it reports whether the event is new, and an old one keeps its flag |
| CreditStore.Store.CheckProcessed | internal/web/billing.go:263-269 | reading the flag is the specified step; the handler goes on exactly when the event was not read as processed |
| CreditStore.Store.RecordWebhook | internal/web/billing.go:257-269 | both together: a delivery that does not go on has a processed event |
| CreditStore.Store.CreditCheckout | internal/web/billing.go:300-330 | keeps the payment and grant invariants; succeeds exactly for a repeated event or checkout or for credits the columns hold, and then posts exactly the session's credits to its account and saves its payment; changes nothing otherwise |
| CreditStore.Store.ReversalTerms | internal/web/billing.go:360-381 | asks for the exact ceiling for a part refunded, all credits for a full refund, an opened or a lost dispute and none for a won one; the status is refunded when all is asked for, else partially refunded, disputed, paid when won, chargeback otherwise |
| CreditStore.Store.TakeBack | internal/web/billing.go:382-405 | and the wallet part moves the specified difference or nothing |
| CreditStore.Store.ApplyStripeReversal | internal/web/billing.go:345-414 | keeps the invariants; succeeds exactly for an intent on record unless giving back overflows the column; then the payment's refunded credits become the larger of before and what the event asks for, if the wallet covers the difference, or nothing for a won dispute, and the wallet moves by exactly that; otherwise nothing changes |
| CreditStore.Store.HandleEvent | internal/web/billing.go:270-330 | unpaid and unrelated events change no table and only get marked; invalid metadata stops; a paid session is credited once, exactly when the database and the columns let it; a reversal does what its event asks for |
| CreditStore.Store.MarkProcessed | internal/web/billing.go:334 | sets the processed flag exactly when the database writes it, and the handler is done |
| CreditStore.Store.BillingWebhook | internal/web/billing.go:252-336 | a whole undisturbed delivery: an event on record as processed changes nothing, an unpaid or unrelated one credits nothing, a paid session is credited once, a reversal does what its event asks for; afterwards the event is flagged as processed if and only if it was before, or it asked for nothing or its session stands credited and the flag is written, or its reversal went through |
| CreditStore.Store.RedeemGiftCode | internal/web/gift_codes.go:187-211 | keeps the invariants; succeeds exactly for a live code with uses left that the account has not used and whose credits fit, posts exactly its credits, counts one use and writes its row, otherwise changes nothing |
| CreditStore.Store.RegisterForEvent | internal/web/events.go:374-393 | keeps the invariants; succeeds exactly when the event is open and has room or the account already holds a place, and never takes the event over its capacity |
| CreditStore.Store.CancelRegistration | internal/web/events.go:297-305 | keeps the invariants; succeeds exactly for a registered account, which then holds no place |
| CreditStore.Store.RewardEventAccount | internal/web/events.go:548-585 | keeps the invariants; each receipt says what the tables said: skipped unless the account attended an event with a reward, duplicate when it has had it, awarded when it is due and its credits fit; an awarded account gets exactly the reward and its row, and otherwise nothing changes |
| CreditStore.Store.AdminEventRewards | internal/web/events.go:512-545 | keeps the invariants; account 0 and repetitions are skipped, every other account is treated as the tables before the batch say, and the balances and rows change exactly for the awarded |
| CreditStore.Store.ClaimDailyReward | internal/web/dashboard.go:138-163 | keeps the invariants; succeeds exactly for the first claim of the day whose credits fit, posts exactly them, otherwise changes nothing |
| CreditStore.Store.VoteRewardCallback | internal/web/dashboard.go:218-245 | keeps the invariants; succeeds exactly for a vote not yet rewarded whose credits fit, posts exactly them, otherwise changes nothing |
| CreditStore.BatchAwardsOnce | internal/web/events.go:512-545 | a batch awards each account at most once, and a receipt says awarded if and only if the batch wrote the account's reward row |
| CreditStore.BatchReceipts | internal/web/events.go:512-545 | the receipts and payments of a batch, by the tables before it: each account as if it were alone |
| ConfigText.SplitJoin | internal/realmagent/agent.go:219-249 | lines joined with line feeds split into the same lines |
| ConfigText.NormalizeJoin | internal/realmagent/agent.go:219 | one pass of the CRLF replacement takes exactly one carriage return from every line but the last |
| ConfigText.SettingRoundTrip | internal/realmagent/agent.go:226-232 | a printed setting is parsed back to its key and value |
| ConfigText.ActualOfJoined | internal/realmagent/agent.go:252-263 | reading text back gives what its lines say, whatever carriage returns are lost |
| ConfigText.LineReads | internal/realmagent/agent.go:252-263 | a line that sets a key is read so, with blanks wherever they may stand and a comment behind |
| ConfigText.QuietLine | internal/realmagent/agent.go:252-263 | blank lines, comments and lines without an equals sign set nothing |
| RealmAgent.SortedIsAscending | internal/realmagent/agent.go:242 | appended keys come in strictly ascending order |
| RealmAgent.ReplaceValues | internal/realmagent/agent.go:218-250 | the in-place loop and the appended block produce the specified text |
| RealmAgent.PrintedText | internal/realmagent/agent.go:218-250 | the printed text line by line: replaced lines, the others unchanged, and the missing keys in ascending order under the agent's comment |
| RealmAgent.ReplacedReadsBack | internal/realmagent/agent.go:218-263 | for every text: the settings read back are those before, overridden by the replacements |
| RealmAgent.OtherLinesStay | internal/realmagent/agent.go:221-235 | lines that set no replaced key keep their text and their place |
| RealmAgent.OverwriteLaw | internal/realmagent/agent.go:218-250 | replacing twice with the same keys equals replacing once with the later values if and only if every kept line followed by another ends in no carriage return of its own |
| RealmAgent.CleanTextIsStable | internal/realmagent/agent.go:219 | text without doubled carriage returns at line ends and none at the very end meets that condition |
| RealmSettings.ValueRoundTrip | internal/realmagent/agent.go:200-216 | an accepted value reads back as itself and is plain text |
| RealmSettings.Validate | internal/realmagent/agent.go:151-166 | the nested loops accept exactly the requests that give switches a flag and rates a number above 0 and at most 1000, all of known settings, and give every file key of every setting its value, in any iteration order |
| RealmSettings.AgreedValue | internal/realmagent/agent.go:266-295 | the inner loop reports v if and only if every file key of the setting is in the file and reads as v (1 is true and 0 false for a switch), and nothing if and only if a key is missing, does not parse, or two keys differ |
| RealmSettings.Inspect | internal/realmagent/agent.go:252-305 | the parser and the table loops report v for a setting if and only if every file key of it reads as v, and leave it out if and only if a key is missing, does not parse, or two differ |
| RealmSettings.RequestTakesEffect | internal/realmagent/agent.go:140-185 | whatever the file held, after a valid request it reports what it reported before, overridden by the request, settings it does not mention included |
| RealmSettings.Agent.Apply | internal/realmagent/agent.go:140-185 | the request succeeds exactly when it is acceptable and the file operations succeed; then the report is the old one overridden by the request; otherwise the file is untouched |
| RealmSettings.AllowedIsWellKeyed | internal/realmagent/agent.go:36-54 | in the table of settings every file key is fit to be written and belongs to one setting only |
| Identity.IdentitiesStaySound | internal/web/identity.go:25-60 | in every interleaving of sign-up, ensure, link, promote and unlink every identity keeps exactly one primary account and every linked account an existing identity |
| Identity.UnguardedDeleteBreaksIff | internal/web/identity.go:273-283 | deleting the checked row without the guard breaks this if and only if the account has become primary since |
| Identity.PromotionCanOvertakeUnlink | internal/web/identity.go:240-283 | a run in which it has |
| Identity.PurposeIsCarriedOut | internal/web/identity.go:125-286 | a request goes on in the identity of its own account, on the target it names; nobody unlinks the account they are signed in with |
| Identity.Store.EnsureIdentity | internal/web/identity.go:33-59 | returns the account's identity and changes nothing if it has one; otherwise makes a new one with the account as its primary |
| Identity.Store.LinkAccount | internal/web/identity.go:145 | links exactly when the account is in no identity, as a member that is not primary, and changes no other row |
| Identity.Store.PromoteAccount | internal/web/identity.go:245-251 | succeeds exactly when the account is in the identity; then it is primary, every other account of the identity is not, and the other identities stay |
| Identity.Store.CheckUnlink | internal/web/identity.go:273-280 | goes on, carrying identity and target, exactly when the account is in the identity and not primary |
| Identity.Store.UnlinkAccount | internal/web/identity.go:281-286 | deletes exactly when the account is still in the identity and still not primary |
| Srp.Reverse | internal/srp/srp.go:66-70 | the in-place swap loop reverses the array |
| Srp.ReadLittle | internal/srp/srp.go:51-55 | copying, reversing and reading big-endian is reading little-endian |
| Srp.WriteLittle | internal/srp/srp.go:56-65 | the loop writes the little-endian bytes, zero-padded, for any number and size |
| Srp.BytesRoundTrip | internal/srp/srp.go:51-65 | bytes to number and back |
| Srp.NumberRoundTripIff | internal/srp/srp.go:56-65 | number to bytes and back if and only if the number fits |
| Srp.VerifierIsExact | internal/srp/srp.go:42-50 | a verifier is its residue, never a truncation of it |
| Srp.ComputeVerifier | internal/srp/srp.go:42-50 | the verifier by way of the byte-order loops: 32 bytes that are, little-endian, 7 to the little-endian SHA1 of salt and SHA1(name:password), modulo N |
| Srp.Register | internal/srp/srp.go:20-28 | stores the salt and the verifier of the name and password in upper case, that number |
| Srp.Verify | internal/srp/srp.go:30-40 | the accumulating loop accepts, among byte strings of any length, exactly the verifier of the name and password in upper case, by that number |
| Srp.AcceptedIffSameResidue | internal/srp/srp.go:20-40 | a stored verifier is accepted for another name and password if and only if the residues agree, in particular for every spelling with the same upper case |
| Srp.ExponentTellsApart | internal/srp/srp.go:42-50 | unless the hash collides on the strings at hand, two exponents agree if and only if the salts do and the names and passwords joined by a colon do |
| Srp.OneVerifier | internal/srp/srp.go:42-50 | there is exactly one verifier, and it is the one calculated |
| Srp.LittleEndian | internal/srp/srp.go:51-65 | the k-th byte weighs 256 to the power k |

## Left out

- HTTP decoding, cookies, permissions, rate limits, JSON output, notifications, metrics and audit rows: no effect on the modelled state.
- The texts of realm commands (character and realm names, mail subjects): commands are values that say what they do.
- A command the realm applies only after it has already answered with an error, or after the worker that sent it died: the model decides at sending whether a command is applied.
- Coupons, stock counts, product variants, pricing and the product row a refund joins: a purchase is the debit, the order row and the ledger row.
- Level 80 training as SQL on the character database: one command that is applied or not.
- Bulk retry: the single retry, repeated.
- Gift messages of payments, receipt URLs, currencies and dispute ids: written, never read by the modelled code.
- The signature of webhooks and the hash of their payloads; an event id determines its payload only where a theorem says so.
- Referral milestones, missions, vote sites and Discord rewards: more grants of the same form as the four modelled.
- The streak that picks the daily amount: the amount is a parameter of the claim.
- The form checks on an event staff edit (its dates, a reward of at most 100000): staff set any event, which is more than they can.
- Event deadlines, code expiry dates and event visibility: a request says whether they stand in its way.
- SHA-1, the curve test, letter-case mapping and the parsing and printing of floating-point numbers: parameters, the last with a stated round trip.
- Invalid UTF-8 and the 4 MiB limit of configuration files; backups beyond whether they succeed.
- The list of settings that need a restart: constant, never changed.
- Passkey assertion, challenges and sign counters.
- Locks and SQL isolation: each statement or transaction is atomic.
- Purchase and order refund in place: their wallet and ledger rows are modelled on values in Books, the order row of a refund in place in FulfilmentPortal.
- Lemmas that only carry a proof from step to step have no row above.
