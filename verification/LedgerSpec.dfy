/** The ledger as a state machine: its state, the invariant between tables and memory, and what each
    operation makes of a state. */
module LedgerSpec {

  import opened AddressHistory
  import opened Blocks
  import opened ChainState
  import opened ForkChoice
  import opened LedgerIndex
  import opened LedgerStore
  import opened Votes
  import opened Wrappers

  const DEFAULT_FINALITY_DEPTH := 2

  datatype State = State(
    tables: Tables,
    head: Head,
    accounts: Accounts,
    committed: map<TxId, Hash>,
    finalityDepth: nat,
    suspended: bool)

  /** The hash functions and the genesis hash a ledger lives with. */
  datatype World = World(hashing: Hashing, genesis: Hash)

  ghost predicate ValidWorld(w: World) {
    Collisionless(w.hashing, w.genesis)
  }

  // ----- The invariant -----

  /** A block's height fits its parent, whichever block that is. */
  ghost predicate WellLinked(w: World, b: Block) {
    && (b.parent == w.genesis ==> b.height == 1)
    && (forall p: Block :: w.hashing.block(p) == b.parent ==> b.height == p.height + 1)
  }

  /** A stored block sits under its hash, fits its parent, repeats no transaction, and has a snapshot of
      the state it commits to. */
  ghost predicate StoredWell(w: World, t: Tables, h: Hash)
    requires h in t.blocks
  {
    && w.hashing.block(t.blocks[h]) == h
    && WellLinked(w, t.blocks[h])
    && NoRepeats(IdsOf(t.blocks[h]))
    && w.hashing.root(Snapshot(t, h)) == t.blocks[h].stateRoot
  }

  ghost predicate StoreSound(w: World, t: Tables) {
    && (forall h :: h in t.blocks ==> StoredWell(w, t, h))
    && (forall h :: h in t.snapshots ==> h in t.blocks || h == w.genesis)
    && (forall h :: h in t.qcByBlock ==> ValidCertificate(t.qcByBlock[h]))
  }

  /** The blocks from genesis to the head, as the height table lists them. */
  function Chain(s: State): seq<Stored> {
    MainBlocks(s.tables, s.head.height)
  }

  ghost predicate AllIndexable(xs: seq<Stored>) {
    forall i :: 0 <= i < |xs| ==> BlockIndexable(xs[i].block) && xs[i].block.rewardsIndexable
  }

  /** The chain is a parent-linked path of stored blocks without a repeated transaction, and the
      indexes are exactly those of the chain. */
  ghost predicate ChainSound(w: World, t: Tables, chain: seq<Stored>) {
    && Linked(w.genesis, chain)
    && InBlocks(t, chain)
    && TransactionsUnique(chain)
    && AllIndexable(chain)
    && t.indexes == IndexOf(w.genesis, chain)
  }

  /** The head is the tip of the chain and memory agrees with the tables. */
  ghost predicate MemorySound(w: World, s: State, chain: seq<Stored>) {
    && |chain| == s.head.height
    && s.head.blockHash == TipOf(w.genesis, chain)
    && s.tables.head == s.head
    && s.committed == s.tables.indexes.txs
    && Snapshot(s.tables, s.head.blockHash) == s.accounts
    && w.hashing.root(s.accounts) == s.head.stateRoot
    && (forall a :: a in s.accounts ==> a in s.tables.accounts && s.tables.accounts[a] == s.accounts[a])
  }

  /** The finalized hash is the height table's entry at the finalized height, not above the head. */
  ghost predicate FinalitySound(s: State) {
    && s.head.finalizedHeight <= s.head.height
    && s.head.finalizedHeight in s.tables.indexes.heights
    && s.tables.indexes.heights[s.head.finalizedHeight] == s.head.finalizedHash
  }

  ghost predicate SoundWith(w: World, s: State, chain: seq<Stored>) {
    && StoreSound(w, s.tables)
    && ChainSound(w, s.tables, chain)
    && MemorySound(w, s, chain)
    && FinalitySound(s)
  }

  ghost predicate Sound(w: World, s: State) {
    SoundWith(w, s, Chain(s))
  }

  /** The chain of a sound state is the one its height table gives back. */
  lemma ChainIsUnique(w: World, s: State, chain: seq<Stored>)
    requires SoundWith(w, s, chain)
    ensures chain == Chain(s)
  {
    MainBlocksReadBack(w.genesis, s.tables, chain, |chain|);
    assert chain[..|chain|] == chain;
  }

  lemma HeadIsStored(w: World, s: State, chain: seq<Stored>)
    requires MemorySound(w, s, chain)
    ensures s.tables.head == s.head
  {
  }

  lemma StoredBlocksFall(w: World, t: Tables)
    requires StoreSound(w, t)
    ensures Falling(t.blocks)
  {
    forall h | h in t.blocks && t.blocks[h].parent in t.blocks
      ensures t.blocks[h].height == t.blocks[t.blocks[h].parent].height + 1
    {
      assert w.hashing.block(t.blocks[t.blocks[h].parent]) == t.blocks[h].parent;
    }
  }

  // ----- Finality -----

  function FinalityDepth(s: State): nat {
    if s.finalityDepth == 0 then DEFAULT_FINALITY_DEPTH else s.finalityDepth
  }

  function NextFinalizedHeight(s: State, nextHeight: nat): (r: nat)
    ensures s.head.finalizedHeight <= r
    ensures r == s.head.finalizedHeight || r < nextHeight
  {
    if s.suspended then s.head.finalizedHeight
    else if nextHeight <= FinalityDepth(s) then s.head.finalizedHeight
    else if nextHeight - FinalityDepth(s) < s.head.finalizedHeight then s.head.finalizedHeight
    else nextHeight - FinalityDepth(s)
  }

  /** The certificate hash a new head starts with: that of the best certificate stored for its block,
      which must name the block and its height. */
  function AttachedQC(w: World, t: Tables, blockHash: Hash, height: nat, qcHash: Hash): Option<Hash> {
    if blockHash == ZERO_HASH || blockHash !in t.qcByBlock then Some(qcHash)
    else
      var qc := t.qcByBlock[blockHash];
      if qc.hash != blockHash || qc.height != height then None else Some(w.hashing.canonicalQC(qc))
  }

  // ----- Genesis -----

  /** A fresh ledger on the genesis state, whose root is the genesis hash. */
  function GenesisHead(w: World, chainId: string): Head {
    Head(chainId, 0, 0, w.genesis, w.genesis, w.genesis, 0, 0, w.genesis)
  }

  function Genesis(w: World, chainId: string, accounts: Accounts, depth: nat): State {
    var head := GenesisHead(w, chainId);
    State(
      Tables(map[], map[w.genesis := accounts], Indexes(map[0 := w.genesis], map[], map[]), accounts, head, map[], map[]),
      head, accounts, map[], if depth == 0 then DEFAULT_FINALITY_DEPTH else depth, false)
  }

  lemma GenesisSound(w: World, chainId: string, accounts: Accounts, depth: nat)
    requires w.hashing.root(accounts) == w.genesis
    ensures Sound(w, Genesis(w, chainId, accounts, depth))
  {
  }
}
