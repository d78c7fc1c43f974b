/**
 * `Exporter` of src/exporter.rs: the same aggregator, fed from a channel.
 * The blocks the channel delivers before it closes are a finite sequence;
 * each metric the source reports through `metrics!` is returned as a
 * `MetricEvent`.
 */
module Exporter {
  import opened Aggregator
  import AggregatorProperties

  class Exporter {
    var table: map<nat, Block>
    var minNumber: nat
    var maxNumber: nat
    var totalBlockTransactions: int
    var proposals: map<ProposalShortId, nat>

    /** The fields as one aggregator state. */
    function Snapshot(): State
      reads this
    {
      State(table, minNumber, maxNumber, totalBlockTransactions, proposals)
    }

    /** `Exporter::default()` */
    constructor ()
      ensures Snapshot() == Default
    {
      table, minNumber, maxNumber := map[], 0, 0;
      totalBlockTransactions, proposals := 0, map[];
    }

    /**
     * `listen`: a default exporter consumes every received block; the records
     * are those of the received blocks run through the aggregator from the
     * default state.
     */
    static method Listen(received: seq<Block>) returns (events: seq<MetricEvent>)
      ensures events == Run(Default, received).events
    {
      var exporter := new Exporter();
      events := exporter.ListenLoop(received);
    }

    /**
     * The `while let Ok(block) = receiver.recv()` loop of `listen_`: every
     * received block is handled in turn, in the order received.
     */
    method ListenLoop(received: seq<Block>) returns (events: seq<MetricEvent>)
      modifies this
      ensures Snapshot() == Run(old(Snapshot()), received).state
      ensures events == Run(old(Snapshot()), received).events
      ensures totalBlockTransactions == old(totalBlockTransactions) + TxCount(received)
    {
      ghost var start := Snapshot();
      events := [];
      var k := 0;
      while k < |received|
        invariant k <= |received|
        invariant Run(start, received[..k]) == StepResult(Snapshot(), events)
      {
        var emitted := Receive(received[k]);
        events := events + emitted;
        assert received[..k + 1][..k] == received[..k];
        k := k + 1;
      }
      assert received[..k] == received;
      assert totalBlockTransactions == start.total + TxCount(received) by {
        AggregatorProperties.RunTotal(start, received);
      }
    }

    /**
     * The body of that loop for one block: the watermarks, the total and the
     * table are updated, the two gauges emitted, committed ids resolved and
     * proposed ids registered, and the exporter shrinks when `maxNumber` is a
     * multiple of 100.
     */
    method Receive(block: Block) returns (emitted: seq<MetricEvent>)
      modifies this
      ensures Snapshot() == Step(old(Snapshot()), block).state
      ensures emitted == Step(old(Snapshot()), block).events
    {
      ghost var before := Snapshot();
      var number := block.number;
      if maxNumber > number {
        maxNumber := number;
      }
      if minNumber > number {
        minNumber := number;
      }
      totalBlockTransactions := totalBlockTransactions + |block.txProposalIds|;
      table := table[number := block];

      emitted := [GaugeTotal(totalBlockTransactions), GaugeTip(number)];
      var delays := ResolveCommitted(block.txProposalIds, number);
      emitted := emitted + delays;
      RegisterProposed(block.unionProposalIds, number);
      ghost var absorbed := Snapshot();
      assert absorbed == Absorb(before, block);

      if maxNumber % SHRINK_PERIOD == 0 {
        Shrink();
      }
      assert Snapshot() == if absorbed.maxNumber % SHRINK_PERIOD == 0 then Aggregator.Shrink(absorbed) else absorbed;
    }

    /**
     * The loop over the block's transactions: each proposal id is removed from
     * `proposals`, and a delay counter is emitted when the height it was
     * recorded at is below `number`.
     */
    method ResolveCommitted(txIds: seq<ProposalShortId>, number: nat) returns (delays: seq<MetricEvent>)
      modifies this`proposals
      ensures Resolution(proposals, delays) == Resolve(old(proposals), txIds, number)
    {
      delays := [];
      for i := 0 to |txIds|
        invariant Resolution(proposals, delays) == Resolve(old(proposals), txIds[..i], number)
      {
        assert txIds[..i + 1][..i] == txIds[..i];
        var proposalId := txIds[i];
        if proposalId in proposals {
          var proposedNumber := proposals[proposalId];
          proposals := proposals - {proposalId};
          if proposedNumber < number {
            delays := delays + [DelayCounter(number - proposedNumber)];
          }
        }
      }
      assert txIds[..|txIds|] == txIds;
    }

    /** The loop over the block's proposal ids: `proposals.entry(id).or_insert(number)`. */
    method RegisterProposed(unionIds: seq<ProposalShortId>, number: nat)
      modifies this`proposals
      ensures proposals == Register(old(proposals), unionIds, number)
    {
      for i := 0 to |unionIds|
        invariant proposals == Register(old(proposals), unionIds[..i], number)
      {
        assert unionIds[..i + 1][..i] == unionIds[..i];
        var proposalId := unionIds[i];
        if proposalId !in proposals {
          proposals := proposals[proposalId := number];
        }
      }
      assert unionIds[..|unionIds|] == unionIds;
    }

    /**
     * `shrink`: evict the table entry at `minNumber` and advance `minNumber`
     * until `maxNumber <= minNumber + SHRINK_CAPACITY`, then keep only the
     * proposals recorded at or above the new `minNumber`.
     */
    method Shrink()
      modifies this
      ensures Snapshot() == Aggregator.Shrink(old(Snapshot()))
      ensures old(minNumber) <= minNumber
      ensures maxNumber == old(maxNumber) <= minNumber + SHRINK_CAPACITY
      ensures table == Without(old(table), old(minNumber), minNumber)
      ensures forall id :: id in proposals <==> id in old(proposals) && minNumber <= old(proposals)[id]
      ensures forall id :: id in proposals ==> proposals[id] == old(proposals)[id]
    {
      ghost var before := Snapshot();
      while maxNumber > minNumber + SHRINK_CAPACITY
        modifies this`table, this`minNumber
        invariant Aggregator.Shrink(Snapshot()) == Aggregator.Shrink(before)
        decreases maxNumber - minNumber
      {
        table := table - {minNumber};
        minNumber := minNumber + 1;
      }
      var min := minNumber;
      proposals := map id | id in proposals && min <= proposals[id] :: proposals[id];
      ShrinkWindow(before);
    }
  }
}
