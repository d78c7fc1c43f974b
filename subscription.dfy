/**
 * `Metrics` of src/subscription.rs: the aggregator fed block by block from the
 * subscription stream. Each metric the source reports through `metrics!` is
 * returned as a `MetricEvent`.
 */
module Subscription {
  import opened Aggregator

  class Metrics {
    var table: map<nat, Block>
    var minNumber: nat
    var maxNumber: nat
    var totalBlockTransactions: int
    var proposals: map<ProposalShortId, nat>

    /** The fields as one aggregator state. */
    function Snapshot(): State
      reads this
    {
      State(table, minNumber, maxNumber, totalBlockTransactions, proposals)
    }

    /** `Metrics::default()` */
    constructor ()
      ensures Snapshot() == Default
    {
      table, minNumber, maxNumber := map[], 0, 0;
      totalBlockTransactions, proposals := 0, map[];
    }

    /**
     * `new_block`: update the watermarks and the total, store the block, emit
     * the two gauges, resolve the committed ids, register the proposed ids,
     * and shrink when `maxNumber` is a multiple of 100.
     */
    method NewBlock(block: Block) returns (events: seq<MetricEvent>)
      modifies this
      ensures Snapshot() == Step(old(Snapshot()), block).state
      ensures events == Step(old(Snapshot()), block).events
    {
      ghost var before := Snapshot();
      var number := block.number;
      if maxNumber > number {
        maxNumber := number;
      }
      if minNumber > number {
        minNumber := number;
      }
      totalBlockTransactions := totalBlockTransactions + |block.txProposalIds|;
      table := table[number := block];

      events := [GaugeTotal(totalBlockTransactions), GaugeTip(number)];
      var delays := ResolveCommitted(block.txProposalIds, number);
      events := events + delays;
      RegisterProposed(block.unionProposalIds, number);
      ghost var absorbed := Snapshot();
      assert absorbed == Absorb(before, block);

      if maxNumber % SHRINK_PERIOD == 0 {
        Shrink();
      }
      assert Snapshot() == if absorbed.maxNumber % SHRINK_PERIOD == 0 then Aggregator.Shrink(absorbed) else absorbed;
    }

    /**
     * The loop over the block's transactions: each proposal id is removed from
     * `proposals`, and a delay counter is emitted when the height it was
     * recorded at is below `number`.
     */
    method ResolveCommitted(txIds: seq<ProposalShortId>, number: nat) returns (delays: seq<MetricEvent>)
      modifies this`proposals
      ensures Resolution(proposals, delays) == Resolve(old(proposals), txIds, number)
    {
      delays := [];
      for i := 0 to |txIds|
        invariant Resolution(proposals, delays) == Resolve(old(proposals), txIds[..i], number)
      {
        assert txIds[..i + 1][..i] == txIds[..i];
        var proposalId := txIds[i];
        if proposalId in proposals {
          var proposedNumber := proposals[proposalId];
          proposals := proposals - {proposalId};
          if proposedNumber < number {
            delays := delays + [DelayCounter(number - proposedNumber)];
          }
        }
      }
      assert txIds[..|txIds|] == txIds;
    }

    /** The loop over the block's proposal ids: `proposals.entry(id).or_insert(number)`. */
    method RegisterProposed(unionIds: seq<ProposalShortId>, number: nat)
      modifies this`proposals
      ensures proposals == Register(old(proposals), unionIds, number)
    {
      for i := 0 to |unionIds|
        invariant proposals == Register(old(proposals), unionIds[..i], number)
      {
        assert unionIds[..i + 1][..i] == unionIds[..i];
        var proposalId := unionIds[i];
        if proposalId !in proposals {
          proposals := proposals[proposalId := number];
        }
      }
      assert unionIds[..|unionIds|] == unionIds;
    }

    /**
     * `shrink`: evict the table entry at `minNumber` and advance `minNumber`
     * until the window fits the capacity, then keep only the proposals
     * recorded at or above the new `minNumber`.
     */
    method Shrink()
      modifies this
      ensures Snapshot() == Aggregator.Shrink(old(Snapshot()))
      ensures old(minNumber) <= minNumber
      ensures maxNumber == old(maxNumber) <= minNumber + SHRINK_CAPACITY
      ensures table == Without(old(table), old(minNumber), minNumber)
      ensures forall id :: id in proposals <==> id in old(proposals) && minNumber <= old(proposals)[id]
      ensures forall id :: id in proposals ==> proposals[id] == old(proposals)[id]
    {
      ghost var before := Snapshot();
      while maxNumber > minNumber + SHRINK_CAPACITY
        modifies this`table, this`minNumber
        invariant Aggregator.Shrink(Snapshot()) == Aggregator.Shrink(before)
        decreases maxNumber - minNumber
      {
        table := table - {minNumber};
        minNumber := minNumber + 1;
      }
      var min := minNumber;
      proposals := map id | id in proposals && min <= proposals[id] :: proposals[id];
      ShrinkWindow(before);
    }
  }
}
