/**
 * The block-metrics aggregator that both `Metrics` (src/subscription.rs) and
 * `Exporter` (src/exporter.rs) implement: its state, the per-block step and the
 * shrink step, written as functions, with the facts each part promises.
 *
 * The functions fold over their input from the back, one element at a time, in
 * the order the source's loops visit it, so that a loop which has handled the
 * first `i` elements is described by the function applied to `s[..i]`.
 */
module Aggregator {

  /** A proposal short id: fixed-width opaque bytes, compared by value. */
  type ProposalShortId = seq<bv8>

  /**
   * What the aggregator reads of a block view: its number, the proposal short
   * id of each transaction in order, and the union of proposal ids the block
   * carries (its own proposals and those of its uncles).
   */
  datatype Block = Block(
    number: nat,
    txProposalIds: seq<ProposalShortId>,
    unionProposalIds: seq<ProposalShortId>)

  /** One call of the `metrics!` macro. */
  datatype MetricEvent =
    | GaugeTotal(total: int)    // gauge ckb.exporter.block_transactions_total
    | GaugeTip(tip: nat)        // gauge ckb.exporter.tip_number
    | DelayCounter(delay: nat)  // counter ckb.exporter.2pc_delay_blocks += 1, label `delay`

  /** Largest allowed distance between the two watermarks after a shrink. */
  const SHRINK_CAPACITY: nat := 1000

  /** A shrink runs after a block whenever `maxNumber` is a multiple of this. */
  const SHRINK_PERIOD: nat := 100

  /** The five fields of `Metrics` / `Exporter`. */
  datatype State = State(
    table: map<nat, Block>,
    minNumber: nat,
    maxNumber: nat,
    total: int,
    proposals: map<ProposalShortId, nat>)

  /** The state `#[derive(Default)]` gives: empty maps, every number zero. */
  const Default: State := State(map[], 0, 0, 0, map[])

  /** Aggregator state together with the metric records emitted so far. */
  datatype StepResult = StepResult(state: State, events: seq<MetricEvent>)

  /** What resolving a block's transactions leaves: the pending map and the delay counters. */
  datatype Resolution = Resolution(pending: map<ProposalShortId, nat>, delays: seq<MetricEvent>)

  /** The invariant every reachable state keeps. */
  predicate Valid(s: State)
  {
    && s.minNumber <= s.maxNumber
    && (forall k :: k in s.table ==> s.minNumber <= k && s.table[k].number == k)
    && (forall id :: id in s.proposals ==> s.minNumber <= s.proposals[id])
  }

  /** The window bound that a shrink establishes. */
  predicate WithinCapacity(s: State)
  {
    s.maxNumber <= s.minNumber + SHRINK_CAPACITY
  }

  function Elems(ids: seq<ProposalShortId>): set<ProposalShortId>
  {
    set id | id in ids
  }

  /** `table` without the keys from `lo` up to, not including, `hi`. */
  function Without(table: map<nat, Block>, lo: nat, hi: nat): map<nat, Block>
  {
    map k | k in table && (k < lo || hi <= k) :: table[k]
  }

  /**
   * The delay loop: each transaction's proposal id is removed from the pending
   * map, and a delay counter is emitted when its recorded height is below `number`.
   */
  function Resolve(pending: map<ProposalShortId, nat>, ids: seq<ProposalShortId>, number: nat): Resolution
    decreases |ids|
  {
    if ids == [] then Resolution(pending, [])
    else
      var prev := Resolve(pending, ids[..|ids| - 1], number);
      var id := ids[|ids| - 1];
      if id in prev.pending then
        var proposed := prev.pending[id];
        Resolution(prev.pending - {id},
                   if proposed < number then prev.delays + [DelayCounter(number - proposed)] else prev.delays)
      else prev
  }

  /**
   * Reference definition of the delay counters, read off the map as it was
   * before the block: one for the first occurrence of every id that was
   * pending at a height below `number`.
   */
  function ExpectedDelays(pending: map<ProposalShortId, nat>, ids: seq<ProposalShortId>, number: nat): seq<MetricEvent>
    decreases |ids|
  {
    if ids == [] then []
    else
      var init := ids[..|ids| - 1];
      var id := ids[|ids| - 1];
      ExpectedDelays(pending, init, number)
        + if id !in init && id in pending && pending[id] < number then [DelayCounter(number - pending[id])] else []
  }

  /** The ids whose commit produces a delay counter. */
  function Delayed(pending: map<ProposalShortId, nat>, ids: seq<ProposalShortId>, number: nat): set<ProposalShortId>
  {
    set id | id in ids && id in pending && pending[id] < number
  }

  /** The registration loop: `proposals.entry(id).or_insert(number)` for each id in turn. */
  function Register(proposals: map<ProposalShortId, nat>, ids: seq<ProposalShortId>, number: nat): map<ProposalShortId, nat>
    decreases |ids|
  {
    if ids == [] then proposals
    else
      var prev := Register(proposals, ids[..|ids| - 1], number);
      var id := ids[|ids| - 1];
      if id in prev then prev else prev[id := number]
  }

  /** `proposals.retain(|_, number| min_number <= *number)` */
  function Retain(proposals: map<ProposalShortId, nat>, minNumber: nat): map<ProposalShortId, nat>
  {
    map id | id in proposals && minNumber <= proposals[id] :: proposals[id]
  }

  /**
   * `shrink`: evict `table[minNumber]` and advance `minNumber` while the window
   * is wider than the capacity, then drop the proposals recorded below `minNumber`.
   */
  function Shrink(s: State): State
    decreases s.maxNumber - s.minNumber
  {
    if s.maxNumber > s.minNumber + SHRINK_CAPACITY then
      Shrink(s.(table := s.table - {s.minNumber}, minNumber := s.minNumber + 1))
    else
      s.(proposals := Retain(s.proposals, s.minNumber))
  }

  /**
   * The state after a block, before the shrink trigger: the watermarks are
   * replaced by `number` only when `number` is smaller, the transaction count is
   * added, the block is stored, committed ids are resolved and the block's
   * proposal ids registered.
   */
  function Absorb(s: State, b: Block): State
  {
    var n := b.number;
    State(s.table[n := b],
          if s.minNumber > n then n else s.minNumber,
          if s.maxNumber > n then n else s.maxNumber,
          s.total + |b.txProposalIds|,
          Register(Resolve(s.proposals, b.txProposalIds, n).pending, b.unionProposalIds, n))
  }

  /** The records one block emits: the two gauges, then one counter per measured delay. */
  function Emitted(s: State, b: Block): seq<MetricEvent>
  {
    [GaugeTotal(s.total + |b.txProposalIds|), GaugeTip(b.number)]
      + Resolve(s.proposals, b.txProposalIds, b.number).delays
  }

  /** `new_block` in full: absorb the block, then shrink when `maxNumber` is a multiple of 100. */
  function Step(s: State, b: Block): StepResult
  {
    var a := Absorb(s, b);
    StepResult(if a.maxNumber % SHRINK_PERIOD == 0 then Shrink(a) else a, Emitted(s, b))
  }

  /** Blocks received in order, each passed through `Step`; the records are concatenated. */
  function Run(s: State, blocks: seq<Block>): StepResult
    decreases |blocks|
  {
    if blocks == [] then StepResult(s, [])
    else
      var prev := Run(s, blocks[..|blocks| - 1]);
      var next := Step(prev.state, blocks[|blocks| - 1]);
      StepResult(next.state, prev.events + next.events)
  }

  /** Number of transactions in a sequence of blocks. */
  function TxCount(blocks: seq<Block>): nat
    decreases |blocks|
  {
    if blocks == [] then 0 else TxCount(blocks[..|blocks| - 1]) + |blocks[|blocks| - 1].txProposalIds|
  }

  /** The table obtained by inserting each block under its number, later blocks overwriting earlier ones. */
  function Tabulate(table: map<nat, Block>, blocks: seq<Block>): map<nat, Block>
    decreases |blocks|
  {
    if blocks == [] then table
    else
      var last := blocks[|blocks| - 1];
      Tabulate(table, blocks[..|blocks| - 1])[last.number := last]
  }

  function Numbers(blocks: seq<Block>): set<nat>
  {
    set b | b in blocks :: b.number
  }

  // ---------------------------------------------------------------------
  // Delay resolution

  /** Every committed id leaves the pending map, whether or not a delay is emitted; nothing else changes. */
  lemma {:induction false} ResolvePending(pending: map<ProposalShortId, nat>, ids: seq<ProposalShortId>, number: nat)
    ensures Resolve(pending, ids, number).pending == pending - Elems(ids)
    decreases |ids|
  {
    if ids != [] {
      var init := ids[..|ids| - 1];
      ResolvePending(pending, init, number);
      assert ids == init + [ids[|ids| - 1]];
      assert Elems(ids) == Elems(init) + {ids[|ids| - 1]};
    }
  }

  /** The delay loop emits exactly the reference sequence of delay counters. */
  lemma {:induction false} ResolveDelays(pending: map<ProposalShortId, nat>, ids: seq<ProposalShortId>, number: nat)
    ensures Resolve(pending, ids, number).delays == ExpectedDelays(pending, ids, number)
    decreases |ids|
  {
    if ids != [] {
      var init := ids[..|ids| - 1];
      ResolveDelays(pending, init, number);
      ResolvePending(pending, init, number);
      var id := ids[|ids| - 1];
      assert id in Elems(init) <==> id in init;
    }
  }

  /**
   * A delay counter is only emitted for a committed id that was pending at a
   * strictly lower height, and its label is the positive height difference.
   */
  lemma {:induction false} ExpectedDelaysSound(pending: map<ProposalShortId, nat>, ids: seq<ProposalShortId>, number: nat)
    ensures forall e :: e in ExpectedDelays(pending, ids, number) ==>
              && e.DelayCounter?
              && 0 < e.delay
              && exists id :: id in ids && id in pending && pending[id] < number && e.delay == number - pending[id]
    decreases |ids|
  {
    if ids != [] {
      var init := ids[..|ids| - 1];
      ExpectedDelaysSound(pending, init, number);
      forall e | e in ExpectedDelays(pending, init, number)
        ensures exists id :: id in ids && id in pending && pending[id] < number && e.delay == number - pending[id]
      {
        var id :| id in init && id in pending && pending[id] < number && e.delay == number - pending[id];
        assert id in ids;
      }
    }
  }

  /** Every committed id that was pending at a lower height yields its delay counter. */
  lemma {:induction false} ExpectedDelaysComplete(pending: map<ProposalShortId, nat>, ids: seq<ProposalShortId>, number: nat)
    ensures forall id :: id in ids && id in pending && pending[id] < number ==>
              DelayCounter(number - pending[id]) in ExpectedDelays(pending, ids, number)
    decreases |ids|
  {
    if ids != [] {
      var init := ids[..|ids| - 1];
      ExpectedDelaysComplete(pending, init, number);
      assert ids == init + [ids[|ids| - 1]];
      forall id | id in ids && id in pending && pending[id] < number
        ensures DelayCounter(number - pending[id]) in ExpectedDelays(pending, ids, number)
      {
        if id in init {
          assert DelayCounter(number - pending[id]) in ExpectedDelays(pending, init, number);
        }
      }
    }
  }

  /** One counter per distinct delayed id: an id committed twice in a block is counted once. */
  lemma {:induction false} ExpectedDelaysCount(pending: map<ProposalShortId, nat>, ids: seq<ProposalShortId>, number: nat)
    ensures |ExpectedDelays(pending, ids, number)| == |Delayed(pending, ids, number)|
    decreases |ids|
  {
    if ids != [] {
      var init := ids[..|ids| - 1];
      var id := ids[|ids| - 1];
      ExpectedDelaysCount(pending, init, number);
      assert ids == init + [id];
      if id !in init && id in pending && pending[id] < number {
        assert Delayed(pending, ids, number) == Delayed(pending, init, number) + {id};
        assert id !in Delayed(pending, init, number);
      } else {
        assert Delayed(pending, ids, number) == Delayed(pending, init, number);
      }
    }
  }

  // ---------------------------------------------------------------------
  // Proposal registration

  /**
   * First-wins registration: ids already present keep their height, new ids from
   * the block are mapped to `number`, and no other key appears.
   */
  lemma {:induction false} RegisterFirstWins(proposals: map<ProposalShortId, nat>, ids: seq<ProposalShortId>, number: nat)
    ensures Register(proposals, ids, number).Keys == proposals.Keys + Elems(ids)
    ensures forall id :: id in proposals ==> Register(proposals, ids, number)[id] == proposals[id]
    ensures forall id :: id in Register(proposals, ids, number) && id !in proposals ==>
              Register(proposals, ids, number)[id] == number
    decreases |ids|
  {
    if ids != [] {
      var init := ids[..|ids| - 1];
      RegisterFirstWins(proposals, init, number);
      assert ids == init + [ids[|ids| - 1]];
      assert Elems(ids) == Elems(init) + {ids[|ids| - 1]};
    }
  }

  // ---------------------------------------------------------------------
  // Shrink

  /**
   * After `shrink` the window fits the capacity: `minNumber` has moved up to
   * `maxNumber - SHRINK_CAPACITY` if it was below it and otherwise stayed, exactly
   * the table keys passed over are gone, and the proposals are the old ones
   * restricted to heights at or above the new `minNumber`.
   */
  lemma {:induction false} ShrinkWindow(s: State)
    ensures Shrink(s).minNumber ==
              if s.maxNumber > s.minNumber + SHRINK_CAPACITY then s.maxNumber - SHRINK_CAPACITY else s.minNumber
    ensures s.minNumber <= Shrink(s).minNumber
    ensures Shrink(s).maxNumber == s.maxNumber <= Shrink(s).minNumber + SHRINK_CAPACITY
    ensures Shrink(s).table == Without(s.table, s.minNumber, Shrink(s).minNumber)
    ensures Shrink(s).total == s.total
    ensures forall id :: id in Shrink(s).proposals <==> id in s.proposals && Shrink(s).minNumber <= s.proposals[id]
    ensures forall id :: id in Shrink(s).proposals ==> Shrink(s).proposals[id] == s.proposals[id]
    decreases s.maxNumber - s.minNumber
  {
    if s.maxNumber > s.minNumber + SHRINK_CAPACITY {
      var t := s.(table := s.table - {s.minNumber}, minNumber := s.minNumber + 1);
      ShrinkWindow(t);
    } else {
      assert Without(s.table, s.minNumber, s.minNumber) == s.table;
    }
  }
}
