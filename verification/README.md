# A model of the RPC marketplace's load balancer and of settle

The load balancer (LB) forwards JSON-RPC requests to providers it has agreements with, counts what each one
serves, and writes the counts into records on a chain whose answers can be lost. Settle reads the closed
records and pays for them. This project models the parts of both where state, failure and money meet, and
proves what they promise:

- **The counter protocol.** One number per agreement in memory, kept in step with counter records through
  polls, flushes, period closes, successors, ends of agreements, restarts and lost answers. `CounterProtocol`
  is the state machine: a step is one atomic piece of the agent, one write landing (answered or not), one
  expiry, one forward, or a crash, and an adversary picks the order. `CounterInvariant` shows what every step
  keeps, `CounterTheorems` what follows for every run from a first start: forwards are conserved, an agreement
  has one open record, nothing counted is deleted, and a forward is billed twice exactly when a closed record
  expires before memory learned that it closed. `CounterBilling` says what that comes to in closed records, and
  gives a condition an operator can see to that keeps it from happening. `CounterDuplicates` starts from younger
  duplicate records instead, `CounterDates` adds that every closed record can be read, `CounterPeriods` that a
  flush closes a record only after a whole period and that the next one opens where it closed, `CounterExamples`
  holds the runs that show the conditions are needed. `CounterRecords` ties the abstract records to attributes and
  patches.
- **The agent's code.** `CounterReads`, `CounterBatches` and the class in `CounterAgent` are the agent's
  methods as written, each proved to do to memory, and to ask of the chain, what the protocol's step says.
- **Slots and lifetimes.** `Settings` says what a valid configuration promises, `Slots` holds the discovery
  poll as written, `Allocation` what it keeps over whole runs, and `TwoViews` ties its memory to the counting
  one. `Refresh` is the refresh and when the chain takes it; `KeepAlive` says when refreshes that go by the
  expiry memory shows keep a record alive, with polls and without, and `Turns` when the agent's one loop puts a
  poll between them.
- **Sending.** `Writer` is the batch that is halved when refused for its size.
- **Settle.** `Pages` walks a query page by page, `Ledgers` gathers what is owed, `Payments` pays it, and
  `Money` puts many settle runs, provider by provider, among the steps of an LB that goes on counting, and
  bounds the wei moved for an agreement.
- **The pool.** `Pool` has an entry's counters, streak and two gates, with signals heard one at a time;
  `Racing` splits each into its steps and says what is left of that when callers race. `Rotation` is the round
  robin, `Forwarding` one request with failover, `Integrity` one look at a provider's data and `Rounds` a whole
  round with its second looks.
- **Statistics and amounts.** `Stats` has the hourly rings, `Glm` the parser and printer of GLM amounts.

`Basics` and `Sorting` are shared. The parts of the source that change state are classes, loops and arrays
here too, proved against functions; the parts that compute are functions and lemmas.

## What the model assumes

- A read sees the chain as it is, and a write has landed or never will by the time the next batch is built.
  Within a batch every operation lands or not on its own, in any order, which covers every way a batch can be
  split and every part of it that fails. Only the answers are unreliable: a write that landed may be answered
  or not.
- Keys of new records are fresh, and a record is created and changed by this LB alone.
- An agreement's provider and rate never change; an offer's expiry does not move once it is posted.
- A create of an agreement that fails with anything but an unresolved transaction did not land; likewise a
  transfer that fails with anything but one lost sight of did not move money.
- An extend sets an expiry a whole life after the block it lands in. `KeepAlive` takes the refreshes it speaks of
  to be taken by the chain, and says of each result whether it needs a poll that can be read between two of them;
  a failed refresh is one that is not there.
- A timer is due again one interval after its tick was picked, and a tick that is due may be picked before any
  other one that is.
- The class `Pool.Provider` and the results about a history of signals hear one signal at a time. `Racing` does
  not: there a signal's streak step, its gate and its line are apart, and each is one atomic step.
- The reads of a poll, and the reading of the entries' counts, are each one step. Forwards that complete
  between them commute with them, and forwards between the reading of a count and its subtraction are their
  own steps.
- A settle run reads records and receipts as they are at one moment, and runs do not overlap. Between its read
  and each provider, and between providers, anything may happen, and the run may be stopped; it is not killed
  between a transfer and the receipts for it.
- Integers are unbounded except where the source depends on their width: the streak saturates at an i64, the
  probe backoff at a u32, counts subtract saturating, amounts stop at 256 bits, ports at 16, keys at 32 bytes.

## Where the code and its documentation differ

- `docs/ENTITIES.md:243` and `docs/MARKETPLACE.md:217` say a closed record never changes again. The last write
  of an agreement that ended while its close was unanswered does change it: to a later closing block, to a
  larger count, or both (`CounterExamples.ClosedThenChanged`); `CounterTheorems.ClosedRecordStands` says exactly
  when.
- `crates/lb/src/config.rs:491-501` checks that the poll comes before the next refresh by comparing the two
  intervals. One loop runs both, and a job that takes long enough leaves both due at once, in either order:
  `Turns.PolledExactlyWhen` has the exact condition on how long a job may take. Without the poll a record refreshed on
  time can be lost (`KeepAlive.PollsFailedLoses`); `KeepAlive.UnpolledExactly` says when.
- `crates/lb/src/pool.rs:397-398` says that deciding on an outdated streak is harmless. The gate can be left open on
  a streak of failures (`Racing.OutdatedDecisionLetsIn`); `Racing.EndsRightExactlyWhen` says exactly when it
  cannot, `Racing.OutdatedIsOvertaken` how far behind such a decision is, and `Racing.NextDecisionHeals` what puts
  it right. The line about a flip is written after it, so the log can end on one that was flipped back
  (`Racing.LateLineMisleads`).
- A block that differs from the reference's in its number alone is a divergence logged with no field that
  differs (`Integrity.SilentDivergence`).
- Attribute names that repeat within an entity are compared in the order rendered, so a permutation of them is
  a divergence (`Integrity.RepeatedNamesKeepOrder`); `Integrity.SameMeans` is the exact condition.
- A provider that leaves the pool and comes back starts its counter over under a ring that remembers the old
  one, and the ring misses what the two have in common (`Stats.FreshCounterShort`).

## Model

| member | source | states |
|---|---|---|
| CounterRecords.EncodeDecode | crates/lb/src/chain/records.rs:581-640 | decoding an encoded counter record gives it back |
| CounterRecords.EncodeInjective | crates/lb/src/chain/records.rs:581-595 | two records are the same exactly when their attributes are |
| CounterRecords.PatchFrame | crates/lb/src/marketplace/agent.rs:1500-1509 | a patch over the stored attributes leaves exactly the record meant, if and only if the pointers agree and nothing closed is reopened |
| CounterRecords.PatchReadsBack | crates/lb/src/chain/records.rs:219-228 | what any patched record reads back as: the new payload, a state once closed stays closed, the pointers stand |
| CounterRecords.FlushPatchesStand | crates/lb/src/marketplace/agent.rs:1511-1527 | both patches a flush makes leave the record they mean |
| CounterInvariant.StepKeeps | crates/lb/src/marketplace/agent.rs:1258-1445 | every step of the protocol, whatever lands and is answered, keeps the shape of memory, chain and orders, and the balance of forwards |
| CounterInvariant.RunKeeps | crates/lb/src/marketplace/agent.rs:334-357 | so does every run |
| CounterInvariant.GenesisSound | crates/lb/src/marketplace/agent.rs:215-278 | a first start is sound |
| CounterInvariant.FinalPatchesSound | crates/lb/src/marketplace/agent.rs:571-606 | the last writes of ended agreements bill what memory held and what their open records carried, once |
| CounterInvariant.ReconcileBalances | crates/lb/src/marketplace/agent.rs:736-808 | forgetting and matching loses and doubles nothing but what is hidden by another open record |
| CounterInvariant.EndPeriodsTallies | crates/lb/src/marketplace/agent.rs:1411-1445 | acknowledging the closes that were answered keeps the balance, with forwards served meanwhile |
| CounterInvariant.PatchBalances | crates/lb/src/marketplace/agent.rs:1297-1405 | a patch that lands, answered or not, moves a count from what is carried into the ledger and changes nothing else |
| CounterInvariant.CreateCarried | crates/lb/src/marketplace/agent.rs:1381-1402 | a record created at zero changes nothing that is carried, whether memory hears of it or not |
| CounterInvariant.ExpireCarried | crates/lb/src/marketplace/agent.rs:736-834 | an expiry loses an open count nobody holds and shows again a close nobody learned of, exactly |
| CounterTheorems.Conservation | crates/lb/src/pool.rs:229-256 | in every reachable state: billed + still carried + lost = forwards + forwards billed again |
| CounterTheorems.OneCounter | crates/lb/src/marketplace/agent.rs:710-731 | in every reachable state an agreement has at most one open record |
| CounterTheorems.BilledOnce | crates/lb/src/marketplace/agent.rs:733-772 | over every run from a first start, the tally of forwards billed again stays at zero if and only if no closed record expires unseen, and then no agreement is billed more than it served |
| CounterTheorems.RunDoubles | crates/lb/src/marketplace/agent.rs:740-746 | from any sound start, a forward is billed twice exactly when a close expires unseen or is hidden by another open record |
| CounterBilling.AllCanBeBilled | crates/lb/src/marketplace/agent.rs:1258-1445 | from every sound state some run closes all of an agreement's count: billed then is served plus billed again less lost |
| CounterBilling.OverbillsExactlyWhen | crates/lb/src/marketplace/agent.rs:740-746 | in every reachable state, closed records can come to more than was served, with nothing more served, if and only if more was billed again than lost |
| CounterBilling.ForgottenCloseOverbills | crates/lb/src/marketplace/agent.rs:812-825 | so after a close that expired unseen, with nothing lost, some run bills more than was served |
| CounterBilling.ReadInTimeForgetsNone | crates/lb/src/marketplace/agent.rs:733-758 | with every close whose answer was lost read back by a reconcile before its record expires, none is forgotten |
| CounterBilling.ReadInTimeBillsOnce | crates/lb/src/marketplace/agent.rs:733-758 | and then no agreement is billed more than it served, over every run from a first start |
| CounterTheorems.NothingDestroyed | crates/lb/src/marketplace/agent.rs:564-582 | every delete that is out is for an open record at zero, and every subtraction is covered by the entry's count |
| CounterTheorems.OneRate | crates/lb/src/marketplace/agent.rs:584-594 | every record of an agreement carries its own provider and rate |
| CounterTheorems.ClosedRecordStands | crates/lb/src/marketplace/agent.rs:564-606 | a closed record changes exactly at the last write of an agreement whose close was unanswered, never loses count and keeps its terms |
| CounterTheorems.StopKeepsCounts | crates/lb/src/marketplace/agent.rs:1248-1256 | after a stop whose write landed, a crash loses nothing of an agreement with a record, and everything since the last close of one without |
| CounterTheorems.AtRiskIs | crates/lb/src/marketplace/agent.rs:1363-1380 | what a crash would lose of an agreement is what its record does not say yet |
| CounterTheorems.SingleHidesNone | crates/lb/src/marketplace/agent.rs:736-746 | with one open record an agreement, the test for some open record hides no close |
| CounterDuplicates.DuplicatesHideNone | crates/lb/src/marketplace/agent.rs:1305-1313 | from younger duplicates at zero, with batches that end whole, duplicates never hide a close and stay at zero |
| CounterDuplicates.RunHeldApart | crates/lb/src/marketplace/agent.rs:776-808 | no two agreements ever count into one record |
| CounterDates.ClosedIsDated | crates/lb/src/marketplace/agent.rs:1519-1527 | every closed record names its closing block |
| CounterPeriods.ClosedAfterAPeriod | crates/lb/src/marketplace/agent.rs:1339-1359 | in every reachable state, a live agreement's record that a landing write of a flush closes opened a whole period or more before the head the flush read, and closes at that head with a count; any other stays open |
| CounterPeriods.SuccessorFollows | crates/lb/src/marketplace/agent.rs:1411-1445 | a record that follows an answered close starts at zero at the block a closed record of its agreement names |
| CounterPeriods.BlocksInOrder | crates/lb/src/marketplace/agent.rs:1500-1527 | in every reachable state records opened no later than now, and closed ones between their opening and now |
| CounterPeriods.FirstOpensNow | crates/lb/src/marketplace/agent.rs:955-1025 | an accepted agreement's first record starts at zero at the head |
| CounterExamples.BilledTwice | crates/lb/src/marketplace/agent.rs:812-825 | a run that serves one forward and has closed records bill two: the closed record expired before memory learned it closed |
| CounterExamples.ClosedThenChanged | crates/lb/src/marketplace/agent.rs:571-606 | a run in which a closed record changes |
| CounterExamples.SplitBatchHides | crates/lb/src/marketplace/agent.rs:740-746 | from two open records, a batch landed in part hides a close and bills it again |
| CounterReads.OldestPerAgreement | crates/lb/src/marketplace/agent.rs:712-731 | splits a page into each agreement's open record on the chain that no other one is older than, and the keys of all the others |
| CounterReads.RestTells | crates/lb/src/marketplace/agent.rs:716-730 | a key is among the rest exactly when its row is not its agreement's first |
| CounterReads.FirstsLead | crates/lb/src/marketplace/agent.rs:1555-1559 | an agreement's first row in creation order precedes every other one of it |
| CounterBatches.CollectedIs | crates/lb/src/marketplace/agent.rs:1297-1405 | the batch gathered over duplicates, strays and agreements asks exactly for the flush's orders, each once |
| CounterBatches.ClosingsAre | crates/lb/src/marketplace/agent.rs:1339-1359 | the closes gathered are those of the agreements in memory with an open record, and no others |
| CounterBatches.ClosingsWhenOver | crates/lb/src/marketplace/agent.rs:1334-1359 | an agreement's period closes if and only if the flush is scheduled, something was served, and the head is at least its open record's opening block plus the period |
| CounterBatches.FlushAsks | crates/lb/src/marketplace/agent.rs:1297-1405 | once the batch lands, every open record of a live agreement says what was served, closed at the head if its period closes; an agreement without one gets one at zero at the head; strays close with their count or go at zero; duplicates go; nothing else is asked |
| CounterBatches.PeriodsEndedAre | crates/lb/src/marketplace/agent.rs:1411-1445 | acknowledging close by close is the protocol's end of periods |
| CounterBatches.FinalsAre | crates/lb/src/marketplace/agent.rs:571-606 | the last writes are ones the protocol lets an end of agreements send |
| CounterAgent.Agent.ClosedCounts | crates/lb/src/marketplace/agent.rs:736-758 | reads the closed counts of exactly the records memory held and the chain no longer has open, or nothing when one read fails |
| CounterAgent.Agent.ForgetClosedCounters | crates/lb/src/marketplace/agent.rs:736-772 | those counts leave the entries; a failed read changes nothing |
| CounterAgent.Agent.Match | crates/lb/src/marketplace/agent.rs:784-804 | an entry takes in a record's count only when memory held none |
| CounterAgent.Agent.MatchToAgreements | crates/lb/src/marketplace/agent.rs:776-808 | every agreement is given its record, and the rest are strays |
| CounterAgent.Agent.ReconcileCounters | crates/lb/src/marketplace/agent.rs:658-708 | on success every agreement's count moves by the record it closed unseen and the one it newly takes in, memory is in step with the chain and is the protocol's reconcile; on a full page or a failed read nothing changes |
| CounterAgent.Agent.WriteCount | crates/lb/src/marketplace/agent.rs:1334-1402 | one live agreement's period closes exactly when it served something, the flush is scheduled and the head is a period past the opening; its record then says what was served, closed at the head or open, and a missing one is opened at zero |
| CounterAgent.Agent.CleanUp | crates/lb/src/marketplace/agent.rs:1302-1332 | duplicates are deleted, strays closed or deleted, each once |
| CounterAgent.Agent.CountsBatch | crates/lb/src/marketplace/agent.rs:1297-1405 | the first batch and the closes are the protocol's, and without its words: who closes, what every record says once landed, what is opened and what is tidied up |
| CounterAgent.Agent.EndPeriods | crates/lb/src/marketplace/agent.rs:1411-1445 | of an answered close the count leaves the entry and the record is forgotten, the others are left alone, and only the answered get successors, at zero from the block of the close |
| CounterAgent.Agent.EndAgreements | crates/lb/src/marketplace/agent.rs:529-562 | exactly the agreements gone from the chain leave memory, and each that has a record with everything its entry holds |
| CounterAgent.CloseEnded | crates/lb/src/marketplace/agent.rs:571-606 | each agreement that ended has its record closed at the head with what its entry held, or deleted when that is zero, and nothing else is asked |
| CounterAgent.Agent.AdoptAgreements | crates/lb/src/marketplace/agent.rs:610-653 | memory becomes what adopting row after row gives, which the next two rows say |
| TwoViews.AdoptedExactly | crates/lb/src/marketplace/agent.rs:610-653 | memory keeps what it had and gains exactly the rows new to it whose provider has no agreement there and no older row, each with an empty entry |
| TwoViews.AdoptsAre | crates/lb/src/marketplace/agent.rs:610-653 | and that is a run of the counter protocol's adoptions, changing nothing else |
| TwoViews.ReconcileSame | crates/lb/src/marketplace/agent.rs:465-562 | a reconcile of agreements leaves the memory that counts and the memory that holds slots with the same agreements and providers |
| TwoViews.StepSame | crates/lb/src/marketplace/agent.rs:1258-1445 | and nothing else the counter protocol does moves either, but an acceptance, which adds to both |
| CounterAgent.ReconciledIs | crates/lb/src/marketplace/agent.rs:658-670 | forgetting then matching is the protocol's reconcile, and leaves memory in step |
| Settings.ValidPromises | crates/lb/src/config.rs:424-549 | a configuration validates if and only if the writer's URL is http or https, its lifetimes are whole blocks the chain takes and its intervals, ports and cap fit each other |
| Settings.PortForEverySlot | crates/lb/src/config.rs:281-286 | a valid configuration has exactly one 16-bit port for each slot |
| Slots.Agent.EndAgreements | crates/lb/src/marketplace/agent.rs:529-541 | the agreements the chain no longer has leave memory |
| Slots.Agent.AdoptAgreements | crates/lb/src/marketplace/agent.rs:610-653 | known agreements learn their blocks, new ones join unless their provider has one |
| Slots.Agent.FindPort | crates/lb/src/marketplace/agent.rs:905-925 | the lowest port nobody holds and nothing is bound to, or none when every one is held or bound |
| Slots.Agent.Accept | crates/lb/src/marketplace/agent.rs:955-1025 | slot and port are held after a landed and after an unresolved create, and memory learns of a landed one |
| Slots.Agent.DiscoverOffers | crates/lb/src/marketplace/agent.rs:843-947 | of the offers that name the chain, oldest first: one waits if and only if the agreements and the slots held earlier in the poll have reached the cap, and otherwise is taken already, of a provider that has an agreement, called on the lowest free port, or without a port when none is free; memory learns exactly the landed |
| Slots.RoomMakesACall | crates/lb/src/marketplace/agent.rs:843-947 | with room under the cap, an offer not yet accepted of a provider without an agreement is called as soon as a port is free |
| Allocation.ReconciledIsLive | crates/lb/src/marketplace/agent.rs:465-486 | after a reconcile memory is exactly what lives on the chain |
| Allocation.OneMoreOffer | crates/lb/src/marketplace/agent.rs:962-966 | an agreement outlives the offer it answers, so an earlier one from an offer still alive would still hold its provider |
| Allocation.SlotsStaySound | crates/lb/src/marketplace/agent.rs:836-991 | over every run: providers and ports of live agreements differ, ports are in range, the cap holds, a page holds them all, and no offer is accepted twice |
| Allocation.StepKeeps | crates/lb/src/marketplace/agent.rs:843-991 | polls, restarts, extends, posts and passing blocks keep that |
| Allocation.FailedFreesThePort | crates/lb/src/marketplace/agent.rs:987-991 | why a failed create must not have landed: its port is given out again within the poll |
| Allocation.NoPortMeansStale | crates/lb/src/marketplace/agent.rs:926-932 | while the cap has room, a poll runs out of ports only to stale tunnels |
| Refresh.Collect | crates/lb/src/marketplace/agent.rs:1143-1201 | the batch extends the listing and exactly the records of eligible providers that live at the head and would move later, each once and for its life; as many count as ineligible as memory holds of ineligible providers |
| Refresh.TakenWhileAlive | crates/lb/src/marketplace/agent.rs:1139-1151 | however far memory is behind the chain, a batch built with a head is taken at a later block if and only if the chain still has every record in it |
| Refresh.BatchMovesEach | crates/lb/src/marketplace/agent.rs:1143-1201 | and then moves the expiry of each eligible record exactly as its own fate by memory's expiry says, and of an ineligible one not at all |
| KeepAlive.KeepsExactlyWhen | crates/lb/src/config.rs:491-515 | every schedule keeps a record alive for good, and in every batch, if and only if refresh spacing and delay fit the life and so do the refreshes from one poll to the next |
| KeepAlive.ScheduleKeeps | crates/lb/src/marketplace/agent.rs:1143-1201 | one such schedule, from any record a refresh or an admission left alive, with admissions' extends falling anywhere |
| KeepAlive.PolledBetweenKeeps | crates/lb/src/config.rs:491-501 | with a poll between any two refreshes the spacing and the delay only have to fit the life |
| KeepAlive.FirstRefreshKeeps | crates/lb/src/marketplace/agent.rs:1143-1201 | the first refresh that finds a record alive is a start of such a schedule |
| KeepAlive.AdmissionKeeps | crates/lb/src/marketplace/agent.rs:432-456 | and so is an answered extend at admission |
| KeepAlive.PollsFailedLoses | crates/lb/src/marketplace/agent.rs:1179-1188 | without polls a record refreshed on time is lost |
| KeepAlive.UnpolledExactly | crates/lb/src/marketplace/agent.rs:1179-1188 | without a poll a record is in every batch exactly while heads are below the expiry memory shows, and every refresh finds it alive exactly when each lands within a life of the last of those |
| KeepAlive.ListingKeptExactlyWhen | crates/lb/src/marketplace/agent.rs:1154-1161 | the listing, whose expiry memory never learns, is kept for good by every schedule if and only if spacing and delay fit its life |
| Turns.PolledExactlyWhen | crates/lb/src/marketplace/agent.rs:330-357 | a poll comes between any two refreshes, whatever the loop picks, if and only if no job can last as long as the flush interval, as half the refresh interval, or as the refresh interval exceeds the discovery interval |
| Turns.ValidLeavesRoom | crates/lb/src/config.rs:491-501 | validating leaves room for such jobs, and the order it checks is needed |
| Refresh.ToldApart | crates/lb/src/marketplace/agent.rs:1204-1212 | an extended record is told from an accepted one exactly while the estimated creation block is less early than the lives differ |
| Writer.Halves | crates/lb/src/chain/writer.rs:125-134 | two or more operations split in two, in order |
| Writer.Send | crates/lb/src/chain/writer.rs:188-216 | the loop over the queue gives what halving gives, part for part and call for call |
| Writer.NothingLost | crates/lb/src/chain/writer.rs:188-216 | the parts join to the batch, only single operations are too large, and n parts take 2n - 1 calls |
| Writer.PartsFit | crates/lb/src/chain/writer.rs:188-216 | against a node that takes every batch up to a size: one that fits goes whole, and of one that does not, every part fits and is at least half of that size |
| Writer.ResultsAreAnswers | crates/lb/src/chain/writer.rs:200-214 | each reported result is the node's answer to that very part |
| Writer.FailuresStopNothing | crates/lb/src/chain/writer.rs:191-194 | what fails for another reason than its size changes nothing about the parts after it |
| Pages.EveryPage | settle/src/chain.ts:75-98 | against any node: the rows if and only if every read was answered, every page but the last rose from above its bound and the last is empty, and then they are those pages joined; unread when the last read failed, out of order when its page was; against one in order it misses no row alive throughout |
| Pages.InOrder | settle/src/chain.ts:84-94 | a page is accepted exactly when its keys rise from above the bound |
| Pages.UnchangedIsWhole | settle/src/chain.ts:61-74 | when nothing changes it gives the whole set |
| Ledgers.Gather | settle/src/ledger.ts:45-98 | one entry for each provider owed anything, sorted, with its unpaid records; the settled counted; the total summed |
| Ledgers.SettledExactly | settle/src/ledger.ts:73-78 | a key is read as settled exactly when some payer, the current one or any before it, has a receipt for it with that provider |
| Ledgers.RecordsPartition | settle/src/ledger.ts:69-91 | a record that some payer has a receipt for is in no entry; any other is in its own provider's as often as it was read and in no other |
| Ledgers.InOrder | settle/src/ledger.ts:82-91 | providers rise strictly, and each one's records by closing block |
| Ledgers.TotalIsUnpaid | settle/src/ledger.ts:93-97 | the total is count times rate over exactly the records no payer has a receipt for, an entry's amount the same over its provider's, and the settled are the records one has |
| Payments.PayOne | settle/src/pay.ts:93-159 | the receipts carry the transfer and go out in batches of fifty, one for every record in order; exactly those of failed batches are counted missing, and it goes on only when none is |
| Payments.Pay | settle/src/pay.ts:56-84 | providers are tried in order, each with its own transfer and amount, up to the first not paid and fully receipted |
| Payments.PaidIsPrefix | settle/src/pay.ts:60-83 | what was paid is a prefix of what was owed, to the wei and with each one's own transfer, receipted but for the last |
| Payments.ReceiptReadsBack | settle/src/records.ts:92-165 | a receipt's entity is selected for its own provider alone, and reads back as its record's key, provider, count times rate, chain and transfer |
| Money.SettleReads | settle/src/records.ts:68-83 | settle reads back exactly what the LB encoded, if and only if it names a closing block |
| Money.ReceiptedAreNamed | settle/src/records.ts:153-165 | the records a payment receipted are those that a receipt which landed names, as the next run reads it |
| Money.EntryBooks | settle/src/pay.ts:93-159 | a provider's turn adds a receipt for each record of a batch that landed, alive a whole life from its block; a cover for each once money moved, seen or not; and a report of each whose transfer was lost sight of or whose receipt is counted missing |
| Money.SettlePaysOnce | settle/src/records.ts:153-158 | over all runs, with LB steps between a run's read and each of its payments, a record covered by two transfers was reported, and one covered once and not reported has a receipt for as long as it lives |
| Money.PaidAgainWasReported | settle/src/pay.ts:106-158 | what a run pays again, a run before it reported |
| Money.PaidExactlyWhen | settle/src/ledger.ts:51-92 | with no run under way, some run can pay for a record, first or again, exactly when it is closed, alive and has no receipt |
| Money.TransferIsSum | settle/src/pay.ts:93-120 | the wei a transfer moves for an entry's records come to the amount transferred, and for any other record to none |
| Money.PaysAre | settle/src/pay.ts:56-84 | with nothing between, a run's steps are the providers the payment method tries, in order, and the last one ends it |
| Money.MoneyBound | settle/src/ledger.ts:36-98 | over LB and settle together, the wei moved for an agreement with no reported record is at most its rate times what was served, plus what expiry hid |
| Money.StepKeeps | settle/src/pay.ts:56-159 | LB steps, a run's read, each of its payments, its end and expiring receipts keep the books sound, and what the run read payable |
| Pool.Provider.RecordServed | crates/lb/src/pool.rs:229-236 | one more in both counts |
| Pool.Provider.SubtractServed | crates/lb/src/pool.rs:238-248 | the count leaves the entry, cut off at zero |
| Pool.Provider.SeedServed | crates/lb/src/pool.rs:250-256 | the count is added to what was served already |
| Pool.Provider.SetEligibility | crates/lb/src/pool.rs:415-428 | one gate is set and the other left, and eligibility before and after is answered |
| Pool.Provider.RecordHealth | crates/lb/src/pool.rs:373-404 | heard with nothing between, the streak moves and the health gate follows it |
| Pool.Provider.Quarantine | crates/lb/src/pool.rs:406-413 | heard with nothing between, the streak restarts and the health gate shuts |
| Pool.Provider.RecordIntegrity | crates/lb/src/pool.rs:343-362 | only a match or a divergence moves the integrity gate |
| Pool.StreakIsRun | crates/lb/src/pool.rs:376-395 | after any history the streak is the signed length of the trailing run of equal results since the last quarantine |
| Pool.HealthGate | crates/lb/src/pool.rs:376-413 | signals heard one at a time: the health gate is open exactly when enough successes agreed and since then neither enough failures did nor a quarantine came |
| Pool.AlternatingHolds | crates/lb/src/pool.rs:376-404 | results that alternate never move the gate |
| Pool.IntegrityGate | crates/lb/src/pool.rs:343-363 | verdicts heard one at a time: the integrity gate is shut exactly when the last match or divergence was a divergence, whatever the probes said |
| Pool.FlipsAlternate | crates/lb/src/pool.rs:415-444 | of gate updates from any callers, in the order they take effect, flips alternate and the last one is what eligible answers |
| Pool.HistoryTells | crates/lb/src/pool.rs:322-330 | and so does the log after any history of signals heard one at a time |
| Racing.EffectsTell | crates/lb/src/pool.rs:376-444 | however callers race, flips alternate in the order of effect and end on the truth, the streak is the run of results, and the log is the flips in some order, each once |
| Racing.RightExactlyWhen | crates/lb/src/pool.rs:376-404 | however callers race, a gate stands as the history of signals says exactly when its last update to take effect says what the last one decided does |
| Racing.EndsRightExactlyWhen | crates/lb/src/pool.rs:391-403 | a gate ends as decided in every order the updates under way can take effect, if and only if none of them is outdated |
| Racing.OutdatedIsOvertaken | crates/lb/src/pool.rs:397-398 | a decision the history went back on was followed by as many results as it takes to flip, or by a quarantine if it let the provider in: no single result outdates one |
| Racing.NextDecisionHeals | crates/lb/src/pool.rs:376-404 | the next decision with no other update under way puts its gate right |
| Racing.LogRightExactlyWhen | crates/lb/src/pool.rs:430-444 | the log ends on the truth in every order the lines under way can be written, if and only if none of them was flipped back |
| Racing.WrittenInTurn | crates/lb/src/pool.rs:430-444 | written oldest first, the log is the flips in the order of effect, short of the lines under way |
| Racing.OneByOneIs | crates/lb/src/pool.rs:376-444 | with nothing between, the race is the history of signals, gate, streak and log alike |
| Racing.OutdatedDecisionLetsIn | crates/lb/src/pool.rs:391-403 | a race that leaves the health gate open on a streak of failures |
| Racing.LateLineMisleads | crates/lb/src/pool.rs:430-444 | a race whose last line says eligible of a provider that is not |
| Rotation.FairTurns | crates/lb/src/pool.rs:623-642 | over unchanged membership, as many selections as there are eligible providers return each once |
| Rotation.Members.NextEligible | crates/lb/src/pool.rs:625-642 | the next eligible provider after the cursor, or none when none is eligible |
| Rotation.Members.NextEligibleAmong | crates/lb/src/pool.rs:625-642 | with other selections moving the cursor meanwhile, the provider is the first eligible one met going round, or after a whole lap the first eligible member; none exactly when none is eligible |
| Rotation.Members.Add | crates/lb/src/pool.rs:587-598 | a provider joins at the end |
| Rotation.Members.Remove | crates/lb/src/pool.rs:608-620 | the provider of that id leaves and the others keep their order |
| Forwarding.Attempts | crates/lb/src/proxy.rs:130-195 | attempts follow the rotation and stop at the first answer, the last try or the time allowed, each failure counted and heard on its own provider and on no other |
| Forwarding.Forward | crates/lb/src/proxy.rs:127-221 | a request ends as one thing, counted once: for the provider that answered, for the LB, or nowhere when too large |
| Forwarding.TrafficAdmitsNobody | crates/lb/src/proxy.rs:155-164 | whatever a request's attempts come to, it opens no health gate and leaves the integrity gate |
| Forwarding.DelayBacksOff | crates/lb/src/monitor.rs:320-330 | probing is not slowed before quarantine, then doubles, never falls and never passes the cap |
| Forwarding.BootWindowAdmits | crates/lb/src/monitor.rs:106-115 | a provider that answers every round is let in in the round the boot window closes, not before |
| Integrity.SameMeans | crates/lb/src/integrity.rs:758-771 | two answers carry the same entities exactly when they agree row by row and name by name |
| Integrity.AgreeIsPermuted | crates/lb/src/integrity.rs:758-771 | with unique names that is being a permutation |
| Integrity.RepeatedNamesKeepOrder | crates/lb/src/integrity.rs:758-771 | with repeated names a permutation is not enough |
| Integrity.DivergesOnlyIfWrong | crates/lb/src/integrity.rs:689-756 | one look is a divergence exactly when the provider neither failed, lagged nor agreed, and then carries evidence |
| Integrity.Confirm | crates/lb/src/integrity.rs:409-432 | the second look, whatever it says, is the finding of its provider, the others are untouched, and so a divergence stands only if both looks diverged |
| Rounds.RoundTells | crates/lb/src/integrity.rs:376-432 | of both looks, judged against one set of expected answers: a divergence is a provider wrong at both and carries what was wrong at the second, and otherwise the answer that was not wrong decides |
| Rounds.Record | crates/lb/src/integrity.rs:434-470 | every verdict reaches its own provider's entry, with the height |
| Rounds.Round | crates/lb/src/integrity.rs:376-440 | a round gives every provider the verdict of its own two answers and nothing else; one right at either look keeps its integrity gate |
| Rounds.RightOnceIsNeverShutOut | crates/lb/src/integrity.rs:356-440 | over any history, a provider right at one look of every round is never shut out by the integrity gate |
| Integrity.AnyOrderSame | crates/lb/src/integrity.rs:425-431 | the order the second looks come in does not matter |
| Integrity.BlockDifferences | crates/lb/src/integrity.rs:181-226 | names exactly the fields that differ, the number not among them, and the first place the transactions do |
| Integrity.FirstDifference | crates/lb/src/integrity.rs:212-223 | the place before which two transaction lists agree and at which they differ, or the shorter ends |
| Integrity.SilentDivergence | crates/lb/src/integrity.rs:718-726 | a divergence with nothing to name is one in the number alone |
| Integrity.PickKey | crates/lb/src/integrity.rs:587-606 | of the keys that exist at the height, in order, the one the draw falls on, and none only when there is none |
| Stats.Close | crates/lb/src/stats.rs:84-105 | a tick or stop gives the newest hours of the unbounded ring |
| Stats.KeepsTheNewest | crates/lb/src/stats.rs:94-104 | over any history a ring holds exactly the newest hours, never more than it may |
| Stats.KeptAndLetGo | crates/lb/src/stats.rs:84-105 | kept and let go add up to every process's final reading exactly when no counter ran backwards in its process |
| Stats.BucketsTell | crates/lb/src/stats.rs:76-105 | a bucket holds what its hour's readings grew by, and is partial exactly when one was a stop or a process's first, or there were two |
| Stats.HoursRise | crates/lb/src/stats.rs:76-83 | with hours closed in order, starts rise strictly |
| Stats.ReportPairsUp | crates/lb/src/stats.rs:284-328 | rings closed together pair hour by hour, so a report loses no row |
| Stats.ProviderReport | crates/lb/src/stats.rs:284-305 | a provider's report holds one row for each hour its rings keep from the one asked for on, with both counts of that hour, in order |
| Stats.LbReport | crates/lb/src/stats.rs:306-328 | and so the LB's own, with its three counts |
| Stats.FreshCounterShort | crates/lb/src/stats.rs:84-86 | what a counter that starts over loses |
| Stats.PeriodsAdvance | crates/lb/src/stats.rs:363-387 | the periods closed by ticks and by a stop advance |
| Stats.Statistics.CloseAll | crates/lb/src/stats.rs:207-234 | every provider in the pool and the LB's own answers have their rings closed, and no other's change |
| Stats.Statistics.Tick | crates/lb/src/stats.rs:189-200 | and those of providers gone for longer than a ring holds are let go, and only those |
| Stats.LetGoIsOld | crates/lb/src/stats.rs:191-199 | what is let go had nothing a full ring would still hold |
| Glm.PrintParses | crates/lb/src/marketplace/agent.rs:1529-1533 | every amount that fits parses back from its printed form |
| Glm.ParsePrints | crates/lb/src/config.rs:288-308 | what a text parses to prints as the text without leading zeros, trailing zeros or a bare dot |
| Glm.AcceptsExactly | crates/lb/src/config.rs:290-308 | of all texts, exactly those are accepted that are digits, with at most eighteen more behind one dot if there is one, whose amount fits, and each means that amount |
| Glm.SameAmount | crates/lb/src/config.rs:290-308 | two accepted texts mean one amount exactly when their canonical forms are the same |

## Left out

- Allocation.SlotsStaySound: starts from an empty chain under one configuration; a cap or a port range lowered over a restart is not covered.
- KeepAlive.KeepsExactlyWhen: the spacing and the delay are in blocks; how late the loop's timers and the chain make them is not tied to the intervals.
- Money.MoneyBound: says nothing of an agreement with a reported record, since a person decides what happens next.
- Ledgers.Gather: addresses and keys are numbers, so the lowering of their letters is not modelled; counts above 2^53, which the source reads through a JSON number, are read exactly here.
- Writes that land after the next batch was built, and reads of a chain that is behind, are outside the model.
- Whether a port is bound, what a transfer or a write comes to, what the node or a provider answers, and how late it is are arbitrary answers given to the methods.
- The balances that make a settle run refuse to start are given to it as its reasons.
- The order in which maps are walked is arbitrary here; where the source keeps a list of closes, strays or ended agreements it is a map by agreement.
- The text of a record's JSON payload stands as the document it spells, and the node's encodings of attribute values are left out.
- The file the rings are saved to, but for what a restart reads back of it.
- The page of keys the integrity rounds sample from, its refills, and the counts of a round.
- Gas balances, logging, tunnels, admission tokens and signatures, HTTP, the sidecar, the denylist and the rig.
- The listing record, and what an offer promises beyond its lifetime and its chain.
