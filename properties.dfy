/**
 * What one block does to the aggregator state and what a received sequence of
 * blocks does, stated over the functions of module `Aggregator`.
 */
module AggregatorProperties {
  import opened Aggregator

  // ---------------------------------------------------------------------
  // One block

  /**
   * The watermarks are only ever lowered by a block: `maxNumber` becomes the
   * smaller of itself and the block number. Within the capacity the same holds
   * of `minNumber`, since the shrink then moves nothing, and the window bound
   * is kept; a shrink always leaves the window within the capacity. From zero
   * watermarks, as in the default state, both stay zero.
   */
  lemma StepWatermarks(s: State, b: Block)
    ensures Step(s, b).state.maxNumber <= s.maxNumber
    ensures Step(s, b).state.maxNumber <= b.number
    ensures Step(s, b).state.maxNumber == s.maxNumber || Step(s, b).state.maxNumber == b.number
    ensures WithinCapacity(s) ==>
              && Step(s, b).state.minNumber <= s.minNumber
              && Step(s, b).state.minNumber <= b.number
              && (Step(s, b).state.minNumber == s.minNumber || Step(s, b).state.minNumber == b.number)
              && WithinCapacity(Step(s, b).state)
    ensures Absorb(s, b).maxNumber % SHRINK_PERIOD == 0 ==> WithinCapacity(Step(s, b).state)
    ensures s.minNumber == 0 && s.maxNumber == 0 ==> Step(s, b).state.minNumber == 0 && Step(s, b).state.maxNumber == 0
  {
    ShrinkWindow(Absorb(s, b));
  }

  /**
   * The records of one block: the total gauge carrying the new total, which is
   * the old one plus the block's transaction count, then the tip gauge
   * carrying the block's own number, then the delay counters, one per distinct
   * committed id that was pending at a lower height.
   */
  lemma StepEvents(s: State, b: Block)
    ensures Step(s, b).state.total == s.total + |b.txProposalIds|
    ensures |Step(s, b).events| == 2 + |Delayed(s.proposals, b.txProposalIds, b.number)|
    ensures Step(s, b).events[0] == GaugeTotal(Step(s, b).state.total)
    ensures Step(s, b).events[1] == GaugeTip(b.number)
    ensures Step(s, b).events[2..] == ExpectedDelays(s.proposals, b.txProposalIds, b.number)
  {
    ShrinkWindow(Absorb(s, b));
    ResolveDelays(s.proposals, b.txProposalIds, b.number);
    ExpectedDelaysCount(s.proposals, b.txProposalIds, b.number);
  }

  /**
   * After the two gauges, a block emits only positive delay counters, each for
   * a committed id that was pending at a strictly lower height and labelled
   * with the height difference; every such id yields its counter.
   */
  lemma StepDelays(s: State, b: Block)
    ensures forall e :: e in Step(s, b).events[2..] ==>
              && e.DelayCounter?
              && 0 < e.delay
              && exists id :: id in b.txProposalIds && id in s.proposals && s.proposals[id] < b.number
                              && e.delay == b.number - s.proposals[id]
    ensures forall id :: id in b.txProposalIds && id in s.proposals && s.proposals[id] < b.number ==>
              DelayCounter(b.number - s.proposals[id]) in Step(s, b).events[2..]
  {
    var delays := Resolve(s.proposals, b.txProposalIds, b.number).delays;
    assert Step(s, b).events[2..] == delays;
    ResolveDelays(s.proposals, b.txProposalIds, b.number);
    ExpectedDelaysSound(s.proposals, b.txProposalIds, b.number);
    ExpectedDelaysComplete(s.proposals, b.txProposalIds, b.number);
  }

  /**
   * The block is stored under its number, replacing any earlier block with
   * that number; no other key is added and surviving entries are unchanged.
   * Within the capacity nothing is evicted at all.
   */
  lemma StepTable(s: State, b: Block)
    ensures b.number in Step(s, b).state.table && Step(s, b).state.table[b.number] == b
    ensures forall k :: k in Step(s, b).state.table && k != b.number ==>
              k in s.table && Step(s, b).state.table[k] == s.table[k]
    ensures WithinCapacity(s) ==> Step(s, b).state.table == s.table[b.number := b]
  {
    var a := Absorb(s, b);
    ShrinkWindow(a);
    if WithinCapacity(s) {
      assert Without(a.table, a.minNumber, a.minNumber) == a.table;
    }
  }

  /**
   * Where every proposal entry comes from: either it was already pending with
   * the same height, or the block carries the id and it is mapped to the
   * block's number.
   */
  lemma StepProposalOrigin(s: State, b: Block)
    ensures forall id :: id in Step(s, b).state.proposals ==>
              || (id in s.proposals && Step(s, b).state.proposals[id] == s.proposals[id])
              || (id in b.unionProposalIds && Step(s, b).state.proposals[id] == b.number)
  {
    var resolved := Resolve(s.proposals, b.txProposalIds, b.number).pending;
    ResolvePending(s.proposals, b.txProposalIds, b.number);
    RegisterFirstWins(resolved, b.unionProposalIds, b.number);
    ShrinkWindow(Absorb(s, b));
  }

  /**
   * From a valid state within the capacity: every committed id is removed,
   * also when no delay is emitted, and before registration, so an id both
   * committed and proposed in the block ends up at the block's number;
   * registration keeps the first-seen height of ids still pending and maps
   * new ids to the block's number; no other entry changes.
   */
  lemma StepProposals(s: State, b: Block)
    requires Valid(s) && WithinCapacity(s)
    ensures Step(s, b).state.proposals ==
              Register(s.proposals - Elems(b.txProposalIds), b.unionProposalIds, b.number)
    ensures forall id :: id in b.txProposalIds && id !in b.unionProposalIds ==> id !in Step(s, b).state.proposals
    ensures forall id :: id in b.unionProposalIds && (id in b.txProposalIds || id !in s.proposals) ==>
              id in Step(s, b).state.proposals && Step(s, b).state.proposals[id] == b.number
    ensures forall id :: id in s.proposals && id !in b.txProposalIds ==>
              id in Step(s, b).state.proposals && Step(s, b).state.proposals[id] == s.proposals[id]
    ensures forall id :: id in Step(s, b).state.proposals ==> id in s.proposals || id in b.unionProposalIds
  {
    var a := Absorb(s, b);
    var resolved := Resolve(s.proposals, b.txProposalIds, b.number).pending;
    ResolvePending(s.proposals, b.txProposalIds, b.number);
    RegisterFirstWins(resolved, b.unionProposalIds, b.number);
    ShrinkWindow(a);
    assert forall id :: id in a.proposals ==> a.minNumber <= a.proposals[id];
    assert Step(s, b).state.proposals == a.proposals;
    forall id | id in b.txProposalIds
      ensures id in Elems(b.txProposalIds)
    {
    }
    forall id | id in b.unionProposalIds
      ensures id in Elems(b.unionProposalIds)
    {
    }
  }

  /** A block keeps the state invariant, and within the capacity it keeps the window bound. */
  lemma StepPreservesValid(s: State, b: Block)
    requires Valid(s)
    ensures Valid(Step(s, b).state)
    ensures WithinCapacity(s) ==> WithinCapacity(Step(s, b).state)
  {
    var a := Absorb(s, b);
    var resolved := Resolve(s.proposals, b.txProposalIds, b.number).pending;
    ResolvePending(s.proposals, b.txProposalIds, b.number);
    RegisterFirstWins(resolved, b.unionProposalIds, b.number);
    assert Valid(a);
    ShrinkWindow(a);
  }

  // ---------------------------------------------------------------------
  // A received sequence of blocks

  /**
   * The running total is the starting total plus every transaction received,
   * counting duplicates and blocks in any order of numbers.
   */
  lemma {:induction false} RunTotal(s: State, blocks: seq<Block>)
    ensures Run(s, blocks).state.total == s.total + TxCount(blocks)
    decreases |blocks|
  {
    if blocks != [] {
      var init := blocks[..|blocks| - 1];
      RunTotal(s, init);
      StepEvents(Run(s, init).state, blocks[|blocks| - 1]);
    }
  }

  /** Resubmitting the same block counts its transactions twice: blocks are not deduplicated. */
  lemma DuplicateCountedTwice(b: Block)
    ensures Run(Default, [b, b]).state.total == 2 * |b.txProposalIds|
  {
    RunTotal(Default, [b, b]);
    assert [b, b][..1] == [b];
    assert [b][..0] == [];
    assert TxCount([b]) == |b.txProposalIds|;
  }

  /** Every state reached from a valid state within the capacity is again such a state. */
  lemma {:induction false} RunPreservesValid(s: State, blocks: seq<Block>)
    requires Valid(s) && WithinCapacity(s)
    ensures Valid(Run(s, blocks).state) && WithinCapacity(Run(s, blocks).state)
    decreases |blocks|
  {
    if blocks != [] {
      var init := blocks[..|blocks| - 1];
      RunPreservesValid(s, init);
      StepPreservesValid(Run(s, init).state, blocks[|blocks| - 1]);
    }
  }

  /**
   * From zero watermarks, as in the default state, the watermarks stay zero,
   * so the shrink runs after every block but never evicts: the table holds
   * every block received, the last one for each number.
   */
  lemma {:induction false} RunKeepsZeroWatermarks(s: State, blocks: seq<Block>)
    requires s.minNumber == 0 && s.maxNumber == 0
    ensures Run(s, blocks).state.minNumber == 0 && Run(s, blocks).state.maxNumber == 0
    ensures Run(s, blocks).state.table == Tabulate(s.table, blocks)
    decreases |blocks|
  {
    if blocks != [] {
      var init := blocks[..|blocks| - 1];
      RunKeepsZeroWatermarks(s, init);
      StepWatermarks(Run(s, init).state, blocks[|blocks| - 1]);
      StepTable(Run(s, init).state, blocks[|blocks| - 1]);
    }
  }

  /** The table after a sequence of inserts holds the old keys and the number of every block. */
  lemma {:induction false} TabulateKeys(table: map<nat, Block>, blocks: seq<Block>)
    ensures Tabulate(table, blocks).Keys == table.Keys + Numbers(blocks)
    decreases |blocks|
  {
    if blocks != [] {
      var init := blocks[..|blocks| - 1];
      TabulateKeys(table, init);
      assert blocks == init + [blocks[|blocks| - 1]];
      assert Numbers(blocks) == Numbers(init) + {blocks[|blocks| - 1].number};
    }
  }

  /** A block that no later block shares its number with is the one the table keeps for that number. */
  lemma {:induction false} TabulateLast(table: map<nat, Block>, blocks: seq<Block>, i: nat)
    requires i < |blocks|
    requires forall j :: i < j < |blocks| ==> blocks[j].number != blocks[i].number
    ensures blocks[i].number in Tabulate(table, blocks)
    ensures Tabulate(table, blocks)[blocks[i].number] == blocks[i]
    decreases |blocks|
  {
    var init := blocks[..|blocks| - 1];
    if i < |init| {
      assert forall j :: i < j < |init| ==> init[j] == blocks[j];
      TabulateLast(table, init, i);
    }
  }

  /** From the default state the table's keys are exactly the numbers of the received blocks. */
  lemma RunTableKeys(blocks: seq<Block>)
    ensures Run(Default, blocks).state.table.Keys == Numbers(blocks)
  {
    RunKeepsZeroWatermarks(Default, blocks);
    TabulateKeys(map[], blocks);
  }

  /** From the default state the table holds, for each number, the last block received with it. */
  lemma RunTableLast(blocks: seq<Block>, i: nat)
    requires i < |blocks|
    requires forall j :: i < j < |blocks| ==> blocks[j].number != blocks[i].number
    ensures blocks[i].number in Run(Default, blocks).state.table
    ensures Run(Default, blocks).state.table[blocks[i].number] == blocks[i]
  {
    RunKeepsZeroWatermarks(Default, blocks);
    TabulateLast(map[], blocks, i);
  }

  /**
   * Every height in the proposals map of a state reached from the default
   * state is the number of an earlier received block that carried the id.
   */
  lemma {:induction false} RunProposalProvenance(blocks: seq<Block>)
    ensures ProposedIn(Run(Default, blocks).state.proposals, blocks)
    decreases |blocks|
  {
    if blocks != [] {
      var init := blocks[..|blocks| - 1];
      var last := blocks[|blocks| - 1];
      RunProposalProvenance(init);
      StepProposalOrigin(Run(Default, init).state, last);
      forall id | id in Run(Default, blocks).state.proposals
        ensures exists i :: 0 <= i < |blocks| && id in blocks[i].unionProposalIds
                            && blocks[i].number == Run(Default, blocks).state.proposals[id]
      {
        var p := Run(Default, init).state.proposals;
        if id in p && Run(Default, blocks).state.proposals[id] == p[id] {
          var i :| 0 <= i < |init| && id in init[i].unionProposalIds && init[i].number == p[id];
          assert blocks[i] == init[i];
        } else {
          assert blocks[|blocks| - 1] == last;
        }
      }
    }
  }

  /** Every pending height is the number of a block in `blocks` that carried the id. */
  ghost predicate ProposedIn(proposals: map<ProposalShortId, nat>, blocks: seq<Block>)
  {
    forall id :: id in proposals ==>
      exists i :: 0 <= i < |blocks| && id in blocks[i].unionProposalIds && blocks[i].number == proposals[id]
  }

  /** Delay counters measured against a pending map whose heights all come from `blocks`. */
  lemma DelayFromProposedIn(pending: map<ProposalShortId, nat>, blocks: seq<Block>, ids: seq<ProposalShortId>, number: nat)
    requires ProposedIn(pending, blocks)
    ensures forall e :: e in ExpectedDelays(pending, ids, number) ==>
              && e.DelayCounter?
              && 0 < e.delay
              && exists i, id :: 0 <= i < |blocks| && id in blocks[i].unionProposalIds && id in ids
                                 && blocks[i].number < number && e.delay == number - blocks[i].number
  {
    ExpectedDelaysSound(pending, ids, number);
    forall e | e in ExpectedDelays(pending, ids, number)
      ensures exists i, id :: 0 <= i < |blocks| && id in blocks[i].unionProposalIds && id in ids
                              && blocks[i].number < number && e.delay == number - blocks[i].number
    {
      var id :| id in ids && id in pending && pending[id] < number && e.delay == number - pending[id];
      var i :| 0 <= i < |blocks| && id in blocks[i].unionProposalIds && blocks[i].number == pending[id];
    }
  }

  /**
   * A delay counter emitted for a block after a received sequence measures a
   * real proposal-to-commit distance: some earlier received block at a strictly
   * lower height carried the committed id, and the label is the difference of
   * the two heights.
   */
  lemma DelayMeasuresEarlierProposal(blocks: seq<Block>, b: Block)
    ensures forall e :: e in Step(Run(Default, blocks).state, b).events[2..] ==>
              && e.DelayCounter?
              && 0 < e.delay
              && exists i, id :: 0 <= i < |blocks| && id in blocks[i].unionProposalIds && id in b.txProposalIds
                                 && blocks[i].number < b.number && e.delay == b.number - blocks[i].number
  {
    var s := Run(Default, blocks).state;
    RunProposalProvenance(blocks);
    StepEvents(s, b);
    DelayFromProposedIn(s.proposals, blocks, b.txProposalIds, b.number);
  }

  // ---------------------------------------------------------------------
  // The window is not bounded

  /** The blocks numbered 1 to `k`, in order, without transactions or proposals. */
  function Ascending(k: nat): (blocks: seq<Block>)
    ensures |blocks| == k
  {
    if k == 0 then [] else Ascending(k - 1) + [Block(k, [], [])]
  }

  lemma {:induction false} AscendingTable(k: nat)
    ensures forall key :: key in Tabulate(map[], Ascending(k)) ==> 1 <= key <= k
    ensures |Tabulate(map[], Ascending(k))| == k
  {
    if k > 0 {
      AscendingTable(k - 1);
      assert Ascending(k)[..k - 1] == Ascending(k - 1);
      var t := Tabulate(map[], Ascending(k - 1));
      assert k !in t;
      assert Tabulate(map[], Ascending(k)).Keys == t.Keys + {k};
    }
  }

  /**
   * Because the watermarks stay zero, blocks 1 to `k` leave `k` entries in the
   * table: no bound of `SHRINK_CAPACITY + 1` entries holds for the table.
   */
  lemma TableUnbounded(k: nat)
    ensures |Run(Default, Ascending(k)).state.table| == k
  {
    RunKeepsZeroWatermarks(Default, Ascending(k));
    AscendingTable(k);
  }

  /**
   * A proposal at height 1 committed at height 50 yields one delay counter
   * labelled 49, after the two gauges of each block.
   */
  lemma DelayScenario(x: ProposalShortId)
    ensures Run(Default, [Block(1, [], [x]), Block(50, [x], [])]).events ==
              [GaugeTotal(0), GaugeTip(1), GaugeTotal(1), GaugeTip(50), DelayCounter(49)]
  {
    var b1, b50 := Block(1, [], [x]), Block(50, [x], []);
    assert [b1, b50][..1] == [b1];
    assert [b1][..0] == [];
    assert Run(Default, [b1]) == Step(Default, b1);
    var s1 := Step(Default, b1).state;
    assert Step(Default, b1).events == [GaugeTotal(0), GaugeTip(1)];
    assert Register(map[], [x], 1) == map[x := 1];
    assert Retain(map[x := 1], 0) == map[x := 1];
    assert s1.proposals == map[x := 1] && s1.total == 0;
    assert Resolve(s1.proposals, [x], 50).delays == [DelayCounter(49)];
    assert Step(s1, b50).events == [GaugeTotal(1), GaugeTip(50), DelayCounter(49)];
  }
}
