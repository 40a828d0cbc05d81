/** The whole reorganisation: checks, plan, operations, new memory. */
module Reorganize {

  import opened AddressHistory
  import opened Blocks
  import opened ChainState
  import opened ForkChoice
  import opened LedgerCommit
  import opened LedgerIndex
  import opened LedgerReorg
  import opened LedgerSpec
  import opened LedgerStore
  import opened ReorgOps
  import opened ReorgPlan
  import opened Votes
  import opened Wrappers

  datatype Decision =
    | Accepted(reorganized: bool, plan: Plan)
    | NotBetter
    | Refused

  // ----- The blocks that leave -----

  /** The blocks above height `k`, from the head down. */
  ghost function Leaving(chain: seq<Stored>, k: nat): (r: seq<Stored>)
    requires k <= |chain|
    ensures |r| == |chain| - k && forall j :: 0 <= j < |r| ==> r[j] == chain[|chain| - 1 - j]
  {
    seq(|chain| - k, j requires 0 <= j < |chain| - k => chain[|chain| - 1 - j])
  }

  lemma PlanLeaves(w: World, s: State, plan: Plan, branch: seq<Stored>)
    requires Sound(w, s) && IsPlan(s, plan, branch) && plan.ancestorHeight <= |Chain(s)|
    ensures plan.oldBlocks == Hashes(Leaving(Chain(s), plan.ancestorHeight))
  {
    hide Sound;
    var chain, olds := Chain(s), plan.oldBlocks;
    ChainHeights(w, s);
    forall j | 0 <= j < |olds| ensures olds[j] == chain[|chain| - 1 - j].hash {
      assert s.tables.indexes.heights[|chain| - 1 - j + 1] == chain[|chain| - 1 - j].hash;
    }
  }

  lemma LeavingWereIndexed(w: World, s: State, k: nat)
    requires Sound(w, s) && k <= |Chain(s)|
    ensures WereIndexed(s.tables, Leaving(Chain(s), k))
  {
    hide MemorySound, FinalitySound, Linked, IndexOf, NoRepeats, BlockIndexable;
  }

  lemma LeavingRetracts(w: World, s: State, k: nat)
    requires Sound(w, s) && k <= |Chain(s)|
    ensures RetractAll(s.tables.indexes, Leaving(Chain(s), k)) == IndexOf(w.genesis, Chain(s)[..k])
  {
    hide StoreSound, MemorySound, FinalitySound, Linked, IndexOf, RetractAll, TransactionsUnique, AllIndexable, InBlocks;
    RetractDown(w.genesis, Chain(s), Leaving(Chain(s), k));
  }

  /** A chain has no hash twice. */
  lemma HashesDiffer(w: World, s: State, i: nat, j: nat)
    requires Sound(w, s) && i < |Chain(s)| && j < |Chain(s)| && Chain(s)[i].hash == Chain(s)[j].hash
    ensures i == j
  {
    assert s.tables.blocks[Chain(s)[i].hash].height == i + 1;
    assert s.tables.blocks[Chain(s)[j].hash].height == j + 1;
  }

  lemma OldSetIsAbove(w: World, s: State, k: nat, oldSet: set<Hash>)
    requires Sound(w, s) && k <= |Chain(s)|
    requires forall h :: h in oldSet <==> h in Hashes(Leaving(Chain(s), k))
    ensures forall i :: 0 <= i < |Chain(s)| ==> (Chain(s)[i].hash in oldSet <==> k <= i)
  {
    hide Sound;
    var chain, olds := Chain(s), Hashes(Leaving(Chain(s), k));
    forall i | 0 <= i < |chain| ensures chain[i].hash in oldSet <==> k <= i {
      if k <= i {
        assert olds[|chain| - 1 - i] == chain[i].hash;
      }
      if chain[i].hash in olds {
        var j :| 0 <= j < |olds| && olds[j] == chain[i].hash;
        HashesDiffer(w, s, i, |chain| - 1 - j);
      }
    }
  }

  lemma ReadyToAdd(w: World, s: State, tip: Hash, branch: seq<Stored>, oldSet: set<Hash>)
    requires ValidWorld(w) && Sound(w, s) && Falling(s.tables.blocks) && BranchOf(s, tip) == Some(branch)
    requires ForkHeight(branch) <= |Chain(s)|
    requires forall h :: h in oldSet <==> h in Hashes(Leaving(Chain(s), ForkHeight(branch)))
    ensures Adding(w, s.tables, Chain(s), ForkHeight(branch), oldSet, branch)
  {
    hide Linked, TransactionsUnique, IndexOf, NoRepeats, Branch, MemorySound, AllIndexable;
    OldSetIsAbove(w, s, ForkHeight(branch), oldSet);
    BranchShape(s.tables.blocks, Trunk(s.tables), tip);
    StoredRepeatNothing(w, s.tables, branch);
  }

  lemma StoredRepeatNothing(w: World, t: Tables, xs: seq<Stored>)
    requires StoreSound(w, t) && InBlocks(t, xs)
    ensures forall i :: 0 <= i < |xs| ==> NoRepeats(IdsOf(xs[i].block))
  {
  }

  // ----- The finalized hash -----

  /** The hash at the finalized height of the new chain, looked up in the plan or the old height table. */
  method FinalizedHashFromPlan(ghost w: World, s: State, finalized: nat, plan: Plan, ghost branch: seq<Stored>)
    returns (r: Option<Hash>)
    requires IsPlan(s, plan, branch) && InBlocks(s.tables, branch)
    requires finalized == 0 ==> s.head.finalizedHeight == 0
    requires FinalitySound(s)
    requires plan.ancestorHeight in s.tables.indexes.heights
    requires s.tables.indexes.heights[plan.ancestorHeight] == plan.ancestorHash
    requires forall i :: 0 <= i < |branch| ==> branch[i].block.height == plan.ancestorHeight + 1 + i
    requires finalized <= plan.ancestorHeight + |branch|
    requires forall n: nat :: n <= plan.ancestorHeight ==> n in s.tables.indexes.heights
    ensures finalized <= plan.ancestorHeight ==> r == Some(s.tables.indexes.heights[finalized])
    ensures finalized > plan.ancestorHeight ==> r == Some(branch[finalized - plan.ancestorHeight - 1].hash)
  {
    if finalized == 0 {
      return Some(s.head.finalizedHash);
    }
    if finalized == plan.ancestorHeight {
      return Some(plan.ancestorHash);
    }
    assert finalized > plan.ancestorHeight ==> branch[finalized - plan.ancestorHeight - 1].block.height == finalized;
    for i := 0 to |plan.newBlocks|
      invariant forall k :: 0 <= k < i ==> branch[k].block.height != finalized
    {
      assert plan.newBlocks[i] == branch[i].hash;
      if s.tables.blocks[plan.newBlocks[i]].height == finalized {
        return Some(plan.newBlocks[i]);
      }
    }
    if finalized !in s.tables.indexes.heights {
      return None;
    }
    return Some(s.tables.indexes.heights[finalized]);
  }

  lemma NewHeightAt(w: World, s: State, tip: Hash, branch: seq<Stored>, n: nat)
    requires ValidWorld(w) && Sound(w, s) && Falling(s.tables.blocks) && BranchOf(s, tip) == Some(branch)
    requires n <= ForkHeight(branch) + |branch|
    ensures n in IndexOf(w.genesis, NewChain(Chain(s), branch)).heights
    ensures n <= ForkHeight(branch) ==>
              n in s.tables.indexes.heights && IndexOf(w.genesis, NewChain(Chain(s), branch)).heights[n] == s.tables.indexes.heights[n]
    ensures n > ForkHeight(branch) ==>
              IndexOf(w.genesis, NewChain(Chain(s), branch)).heights[n] == branch[n - ForkHeight(branch) - 1].hash
  {
    hide Sound, IndexOf, Linked, InBlocks, Branch, Trunk;
    NewChainShape(w, s, tip, branch);
    var k, c := ForkHeight(branch), NewChain(Chain(s), branch);
    HeightsOfChain(w.genesis, c);
    if n <= k {
      SharedHeights(w, s, tip, branch);
    } else {
      assert c[n - 1] == branch[n - k - 1];
      assert IndexOf(w.genesis, c).heights[n - 1 + 1] == c[n - 1].hash;
    }
  }

  // ----- Memory -----

  lemma CommittedDelta(w: World, s: State, k: nat, branch: seq<Stored>, removed: seq<TxId>)
    requires Sound(w, s) && k <= |Chain(s)|
    requires RemoveIds(s.committed, removed) == RemoveAllIds(s.committed, Leaving(Chain(s), k))
    ensures RemoveIds(s.committed, removed) + AddAllIds(map[], branch) == IndexOf(w.genesis, Chain(s)[..k] + branch).txs
  {
    hide StoreSound, FinalitySound, Linked, TransactionsUnique, AllIndexable, InBlocks, RemoveIds, RemoveAllIds, AddAllIds,
         ExtendAll, RetractAll;
    var chain := Chain(s);
    LeavingRetracts(w, s, k);
    RetractAllTxs(s.tables.indexes, Leaving(chain, k));
    var below := IndexOf(w.genesis, chain[..k]);
    AddAllIdsJoin(below.txs, branch);
    ExtendAllTxs(below, branch);
    ExtendAllThen(Indexes(map[0 := w.genesis], map[], map[]), chain[..k], branch);
  }

  /** The tables after the operations of a plan; fails when the new chain would repeat a transaction or a
      new block cannot be indexed. */
  method ApplyPlan(ghost w: World, s: State, ghost tip: Hash, plan: Plan, ghost branch: seq<Stored>, next: Accounts, head: Head)
    returns (r: Option<Tables>, committed: map<TxId, Hash>)
    requires ValidWorld(w) && Sound(w, s) && Falling(s.tables.blocks) && BranchOf(s, tip) == Some(branch)
    requires IsPlan(s, plan, branch)
    ensures r.Some? <==> TransactionsUnique(NewChain(Chain(s), branch)) && AllIndexable(branch)
    ensures r.Some? ==> var ix := IndexOf(w.genesis, NewChain(Chain(s), branch));
                        && r.value == s.tables.(indexes := ix, accounts := s.tables.accounts + next, head := head)
                        && committed == ix.txs
  {
    hide *;
    PlanSetting(w, s, tip, plan, branch);
    ghost var k, chain := ForkHeight(branch), Chain(s);
    var deleted, removed, oldSet := DeleteOld(s.tables, plan.oldBlocks, Leaving(chain, k), s.committed);
    ReadyToAdd(w, s, tip, branch, oldSet);
    var ops, added := AddNew(w, s.tables, deleted.value, plan.newBlocks, oldSet, chain, k, branch);
    if ops.None? {
      return None, map[];
    }
    CommittedDelta(w, s, k, branch, removed);
    var rows := AppendAccountsAndHead(s.tables, ops.value, next, head);
    return Some(ApplyAll(s.tables, rows)), RemoveIds(s.committed, removed) + added;
  }

  lemma PlanSetting(w: World, s: State, tip: Hash, plan: Plan, branch: seq<Stored>)
    requires ValidWorld(w) && Sound(w, s) && Falling(s.tables.blocks) && BranchOf(s, tip) == Some(branch)
    requires IsPlan(s, plan, branch)
    ensures |branch| > 0 && ForkHeight(branch) <= |Chain(s)|
    ensures NewChain(Chain(s), branch) == Chain(s)[..ForkHeight(branch)] + branch
    ensures plan.newBlocks == Hashes(branch)
    ensures plan.oldBlocks == Hashes(Leaving(Chain(s), ForkHeight(branch)))
    ensures WereIndexed(s.tables, Leaving(Chain(s), ForkHeight(branch)))
    ensures RetractAll(s.tables.indexes, Leaving(Chain(s), ForkHeight(branch))) == IndexOf(w.genesis, Chain(s)[..ForkHeight(branch)])
  {
    NewChainShape(w, s, tip, branch);
    PlanLeaves(w, s, plan, branch);
    LeavingWereIndexed(w, s, ForkHeight(branch));
    LeavingRetracts(w, s, ForkHeight(branch));
  }

  /** Reorganising to a tip. */
  method TryReorganize(w: World, s: State, tip: Hash) returns (d: Decision, r: State, ghost branch: seq<Stored>)
    requires ValidWorld(w) && Sound(w, s)
    ensures d.Accepted? <==> Reorganizable(w, s, tip)
    ensures d.NotBetter? <==> tip in s.tables.blocks && !BetterTip(w, s.tables.blocks[tip], tip, s.head)
    ensures d.Accepted? ==>
              && ReorgAllowed(w, s, tip, branch) && IsPlan(s, d.plan, branch) && d.reorganized == (|d.plan.oldBlocks| > 0)
              && NextFinalizedHeight(s, s.tables.blocks[tip].height) in IndexOf(w.genesis, NewChain(Chain(s), branch)).heights
              && r == Reorganized(w, s, tip, NewChain(Chain(s), branch))
    ensures !d.Accepted? ==> r == s
  {
    hide *;
    branch := [];
    StoreFalls(w, s);
    Verdict(w, s, tip);
    if tip !in s.tables.blocks {
      return Refused, s, branch;
    }
    var newTip := s.tables.blocks[tip];
    if !BetterTip(w, newTip, tip, s.head) {
      return NotBetter, s, branch;
    }
    TipOffTrunk(w, s, tip);
    var plan := CollectReorgPlan(w, s, tip);
    if plan.None? {
      return Refused, s, branch;
    }
    PlanHasBranch(s, tip);
    branch := BranchOf(s, tip).value;
    PlanIsOnBranch(s, tip, plan.value);
    if plan.value.ancestorHeight < s.head.finalizedHeight {
      return Refused, s, branch;
    }
    var next := Snapshot(s.tables, tip);
    SnapshotHasRoot(w, s, tip);
    if w.hashing.root(next) != newTip.stateRoot {
      return Refused, s, branch;
    }
    var finalized := NextFinalizedHeight(s, newTip.height);
    FinalizedSetting(w, s, tip, plan.value, branch);
    var finalizedHash := FinalizedHashFromPlan(w, s, finalized, plan.value, branch);
    NewHeightAt(w, s, tip, branch, finalized);
    if finalizedHash.None? {
      return Refused, s, branch;
    }
    var qcHash := AttachedQC(w, s.tables, tip, newTip.height, s.head.qcHash);
    if qcHash.None? {
      return Refused, s, branch;
    }
    var head := Head(newTip.chainId, newTip.height, newTip.slot, tip, qcHash.value, newTip.stateRoot, newTip.epoch,
                     finalized, finalizedHash.value);
    var tables, committed := ApplyPlan(w, s, tip, plan.value, branch, next, head);
    if tables.None? {
      return Refused, s, branch;
    }
    r := s.(tables := tables.value, head := head, accounts := next, committed := committed);
    AssembleReorg(w, s, tip, NewChain(Chain(s), branch), head, r);
    return Accepted(|plan.value.oldBlocks| > 0, plan.value), r, branch;
  }

  lemma StoreFalls(w: World, s: State)
    requires Sound(w, s)
    ensures Falling(s.tables.blocks)
  {
    StoredBlocksFall(w, s.tables);
  }

  /** The checks of the method, taken together, are the condition for moving. */
  lemma Verdict(w: World, s: State, tip: Hash)
    requires Falling(s.tables.blocks)
    ensures Reorganizable(w, s, tip) <==>
            && tip in s.tables.blocks && BetterTip(w, s.tables.blocks[tip], tip, s.head)
            && PlanExists(s, tip)
            && s.head.finalizedHeight <= ForkHeight(BranchOf(s, tip).value)
            && TransactionsUnique(NewChain(Chain(s), BranchOf(s, tip).value))
            && AllIndexable(BranchOf(s, tip).value)
            && AttachedQC(w, s.tables, tip, s.tables.blocks[tip].height, s.head.qcHash).Some?
    ensures Reorganizable(w, s, tip) ==> ReorgAllowed(w, s, tip, BranchOf(s, tip).value)
  {
    hide TransactionsUnique, AllIndexable, AttachedQC, BetterTip, NewChain, Branch, Falling, Chain;
    if BranchOf(s, tip).Some? && tip in s.tables.blocks && ReorgAllowed(w, s, tip, BranchOf(s, tip).value) {
      assert Reorganizable(w, s, tip);
    }
  }

  lemma PlanHasBranch(s: State, tip: Hash)
    requires Falling(s.tables.blocks) && PlanExists(s, tip)
    ensures BranchOf(s, tip).Some?
  {
  }

  lemma PlanIsOnBranch(s: State, tip: Hash, plan: Plan)
    requires Falling(s.tables.blocks) && BranchOf(s, tip).Some? && IsPlan(s, plan, BranchOf(s, tip).value)
    ensures |BranchOf(s, tip).value| > 0
    ensures plan.ancestorHeight == ForkHeight(BranchOf(s, tip).value)
  {
  }

  lemma SnapshotHasRoot(w: World, s: State, tip: Hash)
    requires Sound(w, s) && tip in s.tables.blocks
    ensures w.hashing.root(Snapshot(s.tables, tip)) == s.tables.blocks[tip].stateRoot
  {
  }

  /** What looking the finalized hash up relies on. */
  lemma FinalizedSetting(w: World, s: State, tip: Hash, plan: Plan, branch: seq<Stored>)
    requires ValidWorld(w) && Sound(w, s) && Falling(s.tables.blocks) && BranchOf(s, tip) == Some(branch)
    requires IsPlan(s, plan, branch) && s.head.finalizedHeight <= plan.ancestorHeight && tip in s.tables.blocks
    ensures InBlocks(s.tables, branch) && FinalitySound(s)
    ensures plan.ancestorHeight in s.tables.indexes.heights && s.tables.indexes.heights[plan.ancestorHeight] == plan.ancestorHash
    ensures forall i :: 0 <= i < |branch| ==> branch[i].block.height == plan.ancestorHeight + 1 + i
    ensures forall n: nat :: n <= plan.ancestorHeight ==> n in s.tables.indexes.heights
    ensures var finalized := NextFinalizedHeight(s, s.tables.blocks[tip].height);
            && finalized <= plan.ancestorHeight + |branch| && (finalized == 0 ==> s.head.finalizedHeight == 0)
  {
    hide StoreSound, ChainSound, MemorySound, Branch, Trunk, NextFinalizedHeight;
    BranchShape(s.tables.blocks, Trunk(s.tables), tip);
    BranchRoot(w, s, tip, branch);
    ChainHeights(w, s);
    assert branch[|branch| - 1].block.height == branch[0].block.height + (|branch| - 1);
  }

  lemma AssembleReorg(w: World, s: State, tip: Hash, chain: seq<Stored>, head: Head, r: State)
    requires tip in s.tables.blocks
    requires NextFinalizedHeight(s, s.tables.blocks[tip].height) in IndexOf(w.genesis, chain).heights
    requires AttachedQC(w, s.tables, tip, s.tables.blocks[tip].height, s.head.qcHash).Some?
    requires var b := s.tables.blocks[tip]; var finalized := NextFinalizedHeight(s, b.height);
             head == Head(b.chainId, b.height, b.slot, tip,
                          AttachedQC(w, s.tables, tip, b.height, s.head.qcHash).value, b.stateRoot, b.epoch,
                          finalized, IndexOf(w.genesis, chain).heights[finalized])
    requires var ix, next := IndexOf(w.genesis, chain), Snapshot(s.tables, tip);
             r == s.(tables := s.tables.(indexes := ix, accounts := s.tables.accounts + next, head := head),
                     head := head, accounts := next, committed := ix.txs)
    ensures r == Reorganized(w, s, tip, chain)
  {
  }
}
