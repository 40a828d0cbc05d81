/** Reorganisation: when a candidate tip replaces the head, and what the ledger is afterwards. */
module LedgerReorg {

  import opened AddressHistory
  import opened Blocks
  import opened ForkChoice
  import opened LedgerCommit
  import opened LedgerIndex
  import opened LedgerSpec
  import opened LedgerStore
  import opened Votes
  import opened Wrappers

  predicate BetterTip(w: World, b: Block, h: Hash, head: Head) {
    b.height > head.height || (b.height == head.height && w.hashing.textLess(h, head.blockHash))
  }

  /** The hashes on the main chain, genesis included. */
  function Trunk(t: Tables): set<Hash> {
    t.indexes.heights.Values
  }

  /** The height of the block a branch leaves the main chain at. */
  function ForkHeight(branch: seq<Stored>): nat
    requires |branch| > 0
  {
    if branch[0].block.height == 0 then 0 else branch[0].block.height - 1
  }

  function NewChain(chain: seq<Stored>, branch: seq<Stored>): seq<Stored>
    requires |branch| > 0
  {
    if ForkHeight(branch) <= |chain| then chain[..ForkHeight(branch)] + branch else branch
  }

  /** When the ledger moves to a tip: it is stored and better than the head, a branch of stored blocks
      leads to it from a main-chain block that is not below the finalized height, the resulting chain
      repeats no transaction, and its blocks can be indexed. */
  ghost predicate ReorgAllowed(w: World, s: State, tip: Hash, branch: seq<Stored>) {
    && Falling(s.tables.blocks) && tip in s.tables.blocks
    && BetterTip(w, s.tables.blocks[tip], tip, s.head)
    && Branch(s.tables.blocks, Trunk(s.tables), tip) == Some(branch)
    && s.head.finalizedHeight <= ForkHeight(branch)
    && TransactionsUnique(NewChain(Chain(s), branch))
    && AllIndexable(branch)
    && AttachedQC(w, s.tables, tip, s.tables.blocks[tip].height, s.head.qcHash).Some?
  }

  ghost predicate Reorganizable(w: World, s: State, tip: Hash) {
    exists branch :: ReorgAllowed(w, s, tip, branch)
  }

  function ReorgHead(w: World, s: State, tip: Hash, heights: map<nat, Hash>): Head
    requires tip in s.tables.blocks && NextFinalizedHeight(s, s.tables.blocks[tip].height) in heights
    requires AttachedQC(w, s.tables, tip, s.tables.blocks[tip].height, s.head.qcHash).Some?
  {
    var b := s.tables.blocks[tip];
    var finalized := NextFinalizedHeight(s, b.height);
    Head(b.chainId, b.height, b.slot, tip, AttachedQC(w, s.tables, tip, b.height, s.head.qcHash).value,
         b.stateRoot, b.epoch, finalized, heights[finalized])
  }

  /** The new ledger: indexes of the new chain, head on the tip, accounts of the tip's snapshot. */
  function Reorganized(w: World, s: State, tip: Hash, chain: seq<Stored>): State
    requires tip in s.tables.blocks
    requires NextFinalizedHeight(s, s.tables.blocks[tip].height) in IndexOf(w.genesis, chain).heights
    requires AttachedQC(w, s.tables, tip, s.tables.blocks[tip].height, s.head.qcHash).Some?
  {
    var ix := IndexOf(w.genesis, chain);
    var head := ReorgHead(w, s, tip, ix.heights);
    var next := Snapshot(s.tables, tip);
    s.(tables := s.tables.(indexes := ix, accounts := s.tables.accounts + next, head := head),
       head := head, accounts := next, committed := ix.txs)
  }

  // ----- The new chain -----

  /** A branch leaves the main chain at the block whose height its first block builds on. */
  lemma BranchRoot(w: World, s: State, tip: Hash, branch: seq<Stored>)
    requires ValidWorld(w) && Sound(w, s) && Falling(s.tables.blocks)
    requires Branch(s.tables.blocks, Trunk(s.tables), tip) == Some(branch)
    ensures var k := ForkHeight(branch);
            && k <= s.head.height && k in s.tables.indexes.heights
            && s.tables.indexes.heights[k] == RootOf(branch) && branch[0].block.height == k + 1
  {
    hide StoreSound, MemorySound, TransactionsUnique, AllIndexable, Linked, IndexOf, Branch;
    BranchShape(s.tables.blocks, Trunk(s.tables), tip);
    ChainHeights(w, s);
    var k :| k in s.tables.indexes.heights && s.tables.indexes.heights[k] == RootOf(branch);
    RootHeight(w, s, branch[0], k);
  }

  /** The height table of a sound ledger. */
  lemma ChainHeights(w: World, s: State)
    requires Sound(w, s)
    ensures forall n: nat :: n in s.tables.indexes.heights <==> n <= s.head.height
    ensures |Chain(s)| == s.head.height && s.tables.indexes.heights[0] == w.genesis
    ensures s.tables.indexes.heights[s.head.height] == s.head.blockHash
    ensures forall i :: 0 <= i < |Chain(s)| ==> s.tables.indexes.heights[i + 1] == Chain(s)[i].hash
  {
    hide StoreSound, TransactionsUnique, AllIndexable, IndexOf, Linked;
    HeightsOfChain(w.genesis, Chain(s));
  }

  lemma RootHeight(w: World, s: State, first: Stored, k: nat)
    requires Sound(w, s) && first.hash in s.tables.blocks && s.tables.blocks[first.hash] == first.block
    requires k <= |Chain(s)| && k in s.tables.indexes.heights && s.tables.indexes.heights[k] == first.block.parent
    ensures first.block.height == k + 1
  {
    hide TransactionsUnique, AllIndexable, NoRepeats, IndexOf;
    ChainHeights(w, s);
    if k > 0 {
      var below := Chain(s)[k - 1];
      assert s.tables.indexes.heights[k - 1 + 1] == below.hash;
      assert w.hashing.block(below.block) == first.block.parent;
    }
  }

  lemma NewChainLinked(w: World, chain: seq<Stored>, branch: seq<Stored>, k: nat)
    requires Linked(w.genesis, chain) && |branch| > 0 && k <= |chain|
    requires RootOf(branch) == TipOf(w.genesis, chain[..k]) && branch[0].block.height == k + 1
    requires forall i: nat :: i < |branch| ==> ParentAt(branch, i)
    requires forall i :: 0 <= i < |branch| ==> branch[i].block.height == branch[0].block.height + i
    ensures Linked(w.genesis, chain[..k] + branch)
  {
    var c := chain[..k] + branch;
    LinkedPrefix(w.genesis, chain, k);
    forall i: nat | i < |c| ensures LinkedAt(w.genesis, c, i) {
      if i < k {
        assert LinkedAt(w.genesis, chain[..k], i);
        assert c[..i] == chain[..k][..i];
      } else {
        assert c[i] == branch[i - k];
        assert ParentAt(branch, i - k);
        if i == k {
          assert c[..i] == chain[..k];
        } else {
          assert c[..i][i - 1] == branch[i - k - 1];
        }
      }
    }
  }

  /** Everything about the new chain but its indexes. */
  lemma NewChainShape(w: World, s: State, tip: Hash, branch: seq<Stored>)
    requires ValidWorld(w) && Sound(w, s) && Falling(s.tables.blocks)
    requires Branch(s.tables.blocks, Trunk(s.tables), tip) == Some(branch)
    ensures var k := ForkHeight(branch); var c := NewChain(Chain(s), branch);
            && k <= |Chain(s)| && c == Chain(s)[..k] + branch
            && Linked(w.genesis, c) && InBlocks(s.tables, c)
            && |c| == s.tables.blocks[tip].height && TipOf(w.genesis, c) == tip
  {
    hide StoreSound, MemorySound, FinalitySound, TransactionsUnique, AllIndexable, IndexOf, Branch, Trunk, Linked;
    var k, chain := ForkHeight(branch), Chain(s);
    ChainHeights(w, s);
    BranchShape(s.tables.blocks, Trunk(s.tables), tip);
    BranchRoot(w, s, tip, branch);
    PrefixTip(w, s, k);
    JoinedShape(w, s.tables, chain, branch, k, tip);
  }

  lemma JoinedShape(w: World, t: Tables, chain: seq<Stored>, branch: seq<Stored>, k: nat, tip: Hash)
    requires Linked(w.genesis, chain) && InBlocks(t, chain) && InBlocks(t, branch) && |branch| > 0 && k <= |chain|
    requires RootOf(branch) == TipOf(w.genesis, chain[..k]) && branch[0].block.height == k + 1
    requires forall i: nat :: i < |branch| ==> ParentAt(branch, i)
    requires forall i :: 0 <= i < |branch| ==> branch[i].block.height == branch[0].block.height + i
    requires branch[|branch| - 1].hash == tip
    ensures var c := chain[..k] + branch;
            && Linked(w.genesis, c) && InBlocks(t, c) && TipOf(w.genesis, c) == tip
            && tip in t.blocks && |c| == t.blocks[tip].height
  {
    NewChainLinked(w, chain, branch, k);
    JoinedInBlocks(t, chain, branch, k);
    var c := chain[..k] + branch;
    assert c[|c| - 1] == branch[|branch| - 1];
    assert branch[|branch| - 1].block.height == branch[0].block.height + (|branch| - 1);
  }

  lemma JoinedInBlocks(t: Tables, chain: seq<Stored>, branch: seq<Stored>, k: nat)
    requires InBlocks(t, chain) && InBlocks(t, branch) && k <= |chain|
    ensures InBlocks(t, chain[..k] + branch)
  {
    var c := chain[..k] + branch;
    forall i | 0 <= i < |c| ensures c[i].hash in t.blocks && t.blocks[c[i].hash] == c[i].block {
      assert c[i] == if i < k then chain[i] else branch[i - k];
    }
  }

  lemma PrefixTip(w: World, s: State, k: nat)
    requires Sound(w, s) && k <= |Chain(s)| && k in s.tables.indexes.heights
    ensures s.tables.indexes.heights[k] == TipOf(w.genesis, Chain(s)[..k])
  {
    hide StoreSound, MemorySound, FinalitySound, TransactionsUnique, AllIndexable, IndexOf, Linked;
    ChainHeights(w, s);
    if k > 0 {
      assert s.tables.indexes.heights[k - 1 + 1] == Chain(s)[k - 1].hash;
    }
  }

  /** The finalized height after the move lies on the new chain. */
  lemma ReorgFinalizedHeight(w: World, s: State, tip: Hash, branch: seq<Stored>)
    requires ValidWorld(w) && Sound(w, s) && ReorgAllowed(w, s, tip, branch)
    ensures NextFinalizedHeight(s, s.tables.blocks[tip].height) in IndexOf(w.genesis, NewChain(Chain(s), branch)).heights
    ensures NextFinalizedHeight(s, s.tables.blocks[tip].height) <= s.tables.blocks[tip].height
  {
    hide StoreSound, MemorySound, ChainSound, TransactionsUnique, AllIndexable, IndexOf, Linked, Branch, NewChain, AttachedQC;
    NewChainShape(w, s, tip, branch);
    HeightsOfChain(w.genesis, NewChain(Chain(s), branch));
  }

  /** Below the fork height old and new chain have the same height table. */
  lemma SharedHeights(w: World, s: State, tip: Hash, branch: seq<Stored>)
    requires ValidWorld(w) && Sound(w, s) && Falling(s.tables.blocks)
    requires Branch(s.tables.blocks, Trunk(s.tables), tip) == Some(branch)
    ensures var heights := IndexOf(w.genesis, NewChain(Chain(s), branch)).heights;
            forall n: nat :: n <= ForkHeight(branch) ==>
              n in s.tables.indexes.heights && n in heights && heights[n] == s.tables.indexes.heights[n]
  {
    hide StoreSound, MemorySound, FinalitySound, TransactionsUnique, AllIndexable, IndexOf, Branch, Trunk, Linked, InBlocks;
    NewChainShape(w, s, tip, branch);
    var chain, c := Chain(s), NewChain(Chain(s), branch);
    HeightsOfChain(w.genesis, chain);
    HeightsOfChain(w.genesis, c);
    var heights := IndexOf(w.genesis, c).heights;
    forall n: nat | n <= ForkHeight(branch) ensures n in heights && heights[n] == s.tables.indexes.heights[n] {
      if n > 0 {
        assert c[n - 1] == chain[n - 1];
        assert heights[n - 1 + 1] == c[n - 1].hash && s.tables.indexes.heights[n - 1 + 1] == chain[n - 1].hash;
      }
    }
  }

  // ----- Soundness -----

  lemma ReorgSound(w: World, s: State, tip: Hash, branch: seq<Stored>)
    requires ValidWorld(w) && Sound(w, s) && ReorgAllowed(w, s, tip, branch)
    ensures NextFinalizedHeight(s, s.tables.blocks[tip].height) in IndexOf(w.genesis, NewChain(Chain(s), branch)).heights
    ensures Sound(w, Reorganized(w, s, tip, NewChain(Chain(s), branch)))
    ensures Chain(Reorganized(w, s, tip, NewChain(Chain(s), branch))) == NewChain(Chain(s), branch)
  {
    ReorgFinalizedHeight(w, s, tip, branch);
    var c := NewChain(Chain(s), branch);
    var u := Reorganized(w, s, tip, c);
    StoreFrame(w, s.tables, u.tables);
    ReorgChain(w, s, tip, branch);
    ReorgMemory(w, s, tip, branch);
    ChainIsUnique(w, u, c);
  }

  lemma ReorgChain(w: World, s: State, tip: Hash, branch: seq<Stored>)
    requires ValidWorld(w) && Sound(w, s) && ReorgAllowed(w, s, tip, branch)
    requires NextFinalizedHeight(s, s.tables.blocks[tip].height) in IndexOf(w.genesis, NewChain(Chain(s), branch)).heights
    ensures ChainSound(w, Reorganized(w, s, tip, NewChain(Chain(s), branch)).tables, NewChain(Chain(s), branch))
  {
    NewChainShape(w, s, tip, branch);
    JoinedIndexable(Chain(s), branch, ForkHeight(branch));
    var c := NewChain(Chain(s), branch);
    ReindexedChain(w, s.tables, Reorganized(w, s, tip, c).tables, c);
  }

  lemma ReindexedChain(w: World, t: Tables, u: Tables, c: seq<Stored>)
    requires Linked(w.genesis, c) && InBlocks(t, c) && TransactionsUnique(c) && AllIndexable(c)
    requires u.blocks == t.blocks && u.indexes == IndexOf(w.genesis, c)
    ensures ChainSound(w, u, c)
  {
  }

  lemma JoinedIndexable(chain: seq<Stored>, branch: seq<Stored>, k: nat)
    requires AllIndexable(chain) && AllIndexable(branch) && k <= |chain|
    ensures AllIndexable(chain[..k] + branch)
  {
    var c := chain[..k] + branch;
    forall i | 0 <= i < |c| ensures BlockIndexable(c[i].block) && c[i].block.rewardsIndexable {
      assert c[i] == if i < k then chain[i] else branch[i - k];
    }
  }

  lemma ReorgMemory(w: World, s: State, tip: Hash, branch: seq<Stored>)
    requires ValidWorld(w) && Sound(w, s) && ReorgAllowed(w, s, tip, branch)
    requires NextFinalizedHeight(s, s.tables.blocks[tip].height) in IndexOf(w.genesis, NewChain(Chain(s), branch)).heights
    ensures var u := Reorganized(w, s, tip, NewChain(Chain(s), branch));
            MemorySound(w, u, NewChain(Chain(s), branch)) && FinalitySound(u)
  {
    NewChainShape(w, s, tip, branch);
    ReorgFinalizedHeight(w, s, tip, branch);
    var u := Reorganized(w, s, tip, NewChain(Chain(s), branch));
    assert Snapshot(u.tables, tip) == Snapshot(s.tables, tip);
  }

  /** The common ancestor is the highest block the two chains share: they agree up to the fork height,
      and no block of the branch is on the old chain. */
  lemma ForkIsHighestShared(w: World, s: State, tip: Hash, branch: seq<Stored>)
    requires ValidWorld(w) && Sound(w, s) && ReorgAllowed(w, s, tip, branch)
    ensures var k := ForkHeight(branch);
            && k <= |Chain(s)| && NewChain(Chain(s), branch)[..k] == Chain(s)[..k]
            && forall i, j :: 0 <= i < |branch| && 0 <= j < |Chain(s)| ==> branch[i].hash != Chain(s)[j].hash
  {
    hide StoreSound, MemorySound, ChainSound, TransactionsUnique, AllIndexable, IndexOf, Linked, Branch, AttachedQC, InBlocks;
    NewChainShape(w, s, tip, branch);
    BranchShape(s.tables.blocks, Trunk(s.tables), tip);
    TipOffTrunk(w, s, tip);
    ChainHeights(w, s);
    forall i, j | 0 <= i < |branch| && 0 <= j < |Chain(s)| ensures branch[i].hash != Chain(s)[j].hash {
      assert s.tables.indexes.heights[j + 1] == Chain(s)[j].hash;
      assert Chain(s)[j].hash in Trunk(s.tables);
      assert i == |branch| - 1 ==> branch[i].hash == tip;
    }
  }

  /** A better tip is not on the main chain. */
  lemma TipOffTrunk(w: World, s: State, tip: Hash)
    requires ValidWorld(w) && Sound(w, s)
    requires tip in s.tables.blocks && BetterTip(w, s.tables.blocks[tip], tip, s.head)
    ensures tip !in Trunk(s.tables)
  {
    hide MemorySound, FinalitySound, TransactionsUnique, AllIndexable, IndexOf, NoRepeats, WellLinked;
    ChainHeights(w, s);
    assert w.hashing.block(s.tables.blocks[tip]) == tip;
    forall n | n in s.tables.indexes.heights ensures s.tables.indexes.heights[n] != tip {
      if n > 0 {
        var x := Chain(s)[n - 1];
        assert s.tables.indexes.heights[n - 1 + 1] == x.hash;
        assert x.block.height == n;
      }
    }
  }
}
