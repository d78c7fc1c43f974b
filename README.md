# Block-metrics aggregator

This project models the block-metrics aggregator of a CKB metrics sidecar.
The aggregator receives block views one at a time and keeps five fields:

- a table from block number to block;
- a low watermark `min_number` and a high watermark `max_number`;
- a running transaction total;
- a map from proposal short id to the height at which the id was first seen
  as proposed.

For each block it emits three kinds of metric:

- the `ckb.exporter.block_transactions_total` gauge;
- the `ckb.exporter.tip_number` gauge;
- one `ckb.exporter.2pc_delay_blocks` counter per committed transaction whose
  proposal was pending at a lower height, labelled with the height difference.

Whenever `max_number` is a multiple of 100 it runs a shrink step.

The same logic appears twice in the source:

- `Metrics::new_block` and `Metrics::shrink` in `src/subscription.rs`, modelled
  by class `Subscription.Metrics`;
- the `while let Ok(block) = receiver.recv()` loop of `Exporter::listen_` and
  `Exporter::shrink` in `src/exporter.rs`, modelled by class `Exporter.Exporter`.

Both classes are proved against the same specification functions in module
`Aggregator`:

- `Step` is one block;
- `Shrink` is the shrink step;
- `Run` is a received sequence of blocks.

Every method's postcondition ties the new fields and the emitted records to
these functions. The properties of the aggregator are lemmas about the
functions, in `Aggregator` (the parts of one block) and in
`AggregatorProperties` (one block and a sequence of blocks). Metric calls
become `MetricEvent` values returned in order.

The model follows the code where the design description of the aggregator
says otherwise:

- **Watermark updates.** The design says `max_number` becomes the maximum of
  itself and the block number. The code replaces `max_number` by the block
  number only when the number is smaller, so it is only ever lowered, as
  `min_number` is. From the default state both watermarks stay 0
  (`RunKeepsZeroWatermarks`). So the shrink runs after every block, never
  evicts, and the table keeps every distinct block number received
  (`RunTableKeys`, `RunTableLast`).
- **Table bound.** The described bound of `SHRINK_CAPACITY + 1` table entries
  does not hold. Blocks 1 to k leave k entries (`TableUnbounded`). What does
  hold is the window bound `max_number <= min_number + 1000` right after a
  shrink. That bound is kept by every later block (`StepWatermarks`,
  `RunPreservesValid`).
- **Proposal registration.** The comment next to it says the aim is the
  maximum delay. The code keeps the first height at which an id was seen
  (`RegisterFirstWins`).
- **Capacity constant.** `SHRINK_CAPACITY` is declared twice, locally in
  `Metrics::shrink` and at the top of `src/exporter.rs`. Both values are 1000,
  and the model has one constant.

## Model

| member | source | states |
|---|---|---|
| Subscription.Metrics.constructor | src/subscription.rs:76-84 | A new `Metrics` is the derived default: empty table and proposals, both watermarks and the total zero. |
| Subscription.Metrics.NewBlock | src/subscription.rs:87-125 | The new fields and the returned records are exactly one `Step` of the old state on the block; the lemmas of `AggregatorProperties` about `Step` therefore hold of each call. |
| Subscription.Metrics.ResolveCommitted | src/subscription.rs:104-116 | The loop over the transactions leaves the pending map and the delay counters that `Resolve` describes (by `ResolvePending` and `ResolveDelays`: every committed id removed, one counter per distinct id pending at a lower height). |
| Subscription.Metrics.RegisterProposed | src/subscription.rs:118-121 | The registration loop leaves the map that `Register` describes: first-wins insertion of the block's proposal ids (`RegisterFirstWins`). |
| Subscription.Metrics.Shrink | src/subscription.rs:127-136 | The eviction loop terminates. `min_number` never decreases. Afterwards `max_number` is unchanged and at most `min_number + 1000`, the table is the old one without the keys from the old `min_number` up to the new one, and the proposals are exactly the old entries whose height is at least the new `min_number`. |
| Exporter.Exporter.constructor | src/exporter.rs:14-22 | A new `Exporter` is the derived default state. |
| Exporter.Exporter.Listen | src/exporter.rs:25-28 | A default exporter fed the received blocks emits exactly the records of `Run` from the default state. |
| Exporter.Exporter.ListenLoop | src/exporter.rs:48-86 | After the receive loop, the fields and the emitted records are those of `Run` over the received blocks in order, and the total has grown by the transaction count of all of them. |
| Exporter.Exporter.Receive | src/exporter.rs:49-85 | One iteration of the receive loop is one `Step`: new fields and records as `Step` gives them. |
| Exporter.Exporter.ResolveCommitted | src/exporter.rs:65-77 | The inner loop over transactions leaves the pending map and the counters that `Resolve` describes. |
| Exporter.Exporter.RegisterProposed | src/exporter.rs:79-82 | The inner loop over proposal ids leaves the map that `Register` describes. |
| Exporter.Exporter.Shrink | src/exporter.rs:89-96 | Same window, eviction and retention postconditions as `Metrics.Shrink`, with the module-level `SHRINK_CAPACITY = 1000`. |
| Aggregator.ResolvePending | src/subscription.rs:104-107 | Every committed id leaves the pending map whether or not a counter is emitted, and no other entry changes. |
| Aggregator.ResolveDelays | src/subscription.rs:104-116 | The counters the loop emits, which depend on the map as it shrinks, equal the reference list read off the map as it was before the block. |
| Aggregator.ExpectedDelaysSound | src/subscription.rs:106-114 | Every counter is positive and labelled `number - proposed` for a committed id that was pending at a height `proposed < number`. |
| Aggregator.ExpectedDelaysComplete | src/subscription.rs:106-114 | Every committed id pending at a lower height yields its counter. |
| Aggregator.ExpectedDelaysCount | src/subscription.rs:104-116 | Exactly one counter per distinct such id: an id committed twice in one block is counted once. |
| Aggregator.RegisterFirstWins | src/subscription.rs:118-121 | The keys become the old keys plus the block's ids; an id already present keeps its recorded height; a new id maps to the block's number. |
| Aggregator.ShrinkWindow | src/subscription.rs:127-136 | The new `min_number` is `max_number - 1000` when the window is wider than that and unchanged otherwise. `max_number` and the total are unchanged and the bound holds. Exactly the keys passed over leave the table. The proposals are the old map restricted to heights at least the new `min_number`. |
| AggregatorProperties.StepWatermarks | src/subscription.rs:88-94 | A block never raises `max_number`: it becomes the block number exactly when that is smaller. Within the capacity the same holds of `min_number` and the bound is kept. A triggered shrink always establishes the bound. From zero watermarks both stay zero. |
| AggregatorProperties.StepEvents | src/subscription.rs:95-103 | The total grows by the block's transaction count. The records are the total gauge carrying the new total, then the tip gauge carrying the block's own number, then the reference delay counters, one per distinct delayed id. |
| AggregatorProperties.StepDelays | src/subscription.rs:104-116 | After the two gauges a block emits only positive delay counters, each for a committed id pending at a strictly lower height and labelled with the difference; every such id yields its counter. |
| AggregatorProperties.StepTable | src/subscription.rs:96-131 | The block is stored under its number, replacing an earlier block with that number. Every other surviving key comes from the old table unchanged. Within the capacity the new table is exactly the old one with that single insertion. |
| AggregatorProperties.StepProposalOrigin | src/subscription.rs:106-135 | Every entry afterwards is either an old entry with its old height or an id of the block mapped to the block's number. |
| AggregatorProperties.StepProposals | src/subscription.rs:104-124 | Committed ids are removed before registration. So a committed id not proposed again is gone, and an id committed and proposed in the same block maps to the block's number. Pending ids not committed keep their height; new proposed ids map to the block's number. |
| AggregatorProperties.StepPreservesValid | src/subscription.rs:87-136 | A block keeps the invariant: `min_number <= max_number`, every table key is at least `min_number` and holds a block of that number, and every pending height is at least `min_number`. Within the capacity it keeps the window bound. |
| AggregatorProperties.RunTotal | src/exporter.rs:48-56 | After a received sequence the total is the starting total plus the transaction count of all blocks, in any order of numbers. |
| AggregatorProperties.DuplicateCountedTwice | src/exporter.rs:56 | Receiving the same block twice counts its transactions twice. |
| AggregatorProperties.RunPreservesValid | src/exporter.rs:48-96 | Every state reached from a valid state within the capacity, such as the default state, is again one. |
| AggregatorProperties.RunKeepsZeroWatermarks | src/exporter.rs:48-93 | From zero watermarks they stay zero over any received sequence, so the shrink never evicts and the table is the start table with every block inserted in order. |
| AggregatorProperties.TabulateKeys | src/exporter.rs:57 | Inserting blocks in order leaves the old keys plus every received block number. |
| AggregatorProperties.TabulateLast | src/exporter.rs:57 | The block kept for a number is the last one received with that number. |
| AggregatorProperties.RunTableKeys | src/exporter.rs:48-93 | From the default state the table's keys are exactly the received block numbers: nothing is ever evicted. |
| AggregatorProperties.RunTableLast | src/exporter.rs:48-93 | From the default state the table holds, under each number, the last block received with that number. |
| AggregatorProperties.RunProposalProvenance | src/exporter.rs:79-82 | From the default state every pending height is the number of a received block that carried the id among its proposals. |
| AggregatorProperties.DelayMeasuresEarlierProposal | src/exporter.rs:65-82 | After a received sequence, every delay counter a block emits is positive and equals the block's number minus the number of an earlier received block at a lower height that proposed the committed id. |
| AggregatorProperties.TableUnbounded | src/exporter.rs:50-93 | From the default state, blocks 1 to k leave k table entries, for every k. |
| AggregatorProperties.DelayScenario | src/subscription.rs:98-121 | A proposal at height 1 committed at height 50 yields the records: total 0, tip 1, total 1, tip 50, one delay counter labelled 49. |

## Left out

- `subscribe` in `src/subscription.rs` is left out. It covers the TCP connect retry loop with its five-second sleep, newline framing, the JSON-RPC duplex channel, the notification stream, and the panic on any error. All of it is network I/O.
- JSON decoding of the notification into a block view, and the conversion into the core block type, are library parsing. A block is modelled by its number, the proposal short id of each transaction, and its union of proposal ids.
- How `proposal_short_id()` and `union_proposal_ids_iter()` are computed is not modelled. Ids are opaque byte strings compared by value.
- The metrics service setup in `Exporter::listen_` and the `metrics!` macro are foreign library calls. Each call becomes a returned `MetricEvent`; the delay label is kept as a number rather than its decimal string.
- The blocking channel receive and the thread that feeds it are concurrency. The blocks received before the channel closes are a finite sequence.
- The `listen_address` parameter of `Exporter::listen` only configures the metrics service, so the model drops it.
- `src/command.rs`, `src/logger.rs`, `src/rpc.rs` and `src/main.rs` are not part of this model. They are argument parsing, logging setup, an RPC interface declaration and wiring.
- Fixed-width arithmetic is not modelled: the `i64` total and the `u64` sum `min_number + SHRINK_CAPACITY` are unbounded integers. An overflow panic is therefore not modelled.
- StepProposals: the exact form is stated for valid states within the capacity, where the shrink drops no proposal. By `RunPreservesValid` these are all the states reachable from the default state.
- StepWatermarks: the facts about `min_number` are stated within the capacity only. Outside it a triggered shrink may raise `min_number`, and that case is described by `ShrinkWindow`.
