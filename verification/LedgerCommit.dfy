/** Committing a block on the head, and saving a candidate. */
module LedgerCommit {

  import opened AddressHistory
  import opened Blocks
  import opened ChainState
  import opened LedgerIndex
  import opened LedgerSpec
  import opened LedgerStore
  import opened Votes
  import opened Wrappers

  // ----- Storing a block -----

  function WithBlock(t: Tables, h: Hash, b: Block, next: Accounts): Tables {
    t.(blocks := t.blocks[h := b], snapshots := t.snapshots[h := Snapshot(t, h) + next])
  }

  /** What both commit and candidate saving require of a block and the state it leads to. */
  ghost predicate Storable(w: World, req: Request) {
    w.hashing.root(req.next) == req.block.stateRoot && NoRepeats(IdsOf(req.block))
  }

  /** Storing a block again changes nothing: its snapshot rows are the same. */
  lemma SnapshotIsNext(w: World, t: Tables, req: Request)
    requires ValidWorld(w) && StoreSound(w, t) && Storable(w, req)
    ensures var h := w.hashing.block(req.block); Snapshot(t, h) + req.next == req.next
    ensures var h := w.hashing.block(req.block); h in t.blocks ==> t.blocks[h] == req.block
  {
    var h := w.hashing.block(req.block);
    if h in t.blocks {
      assert w.hashing.block(t.blocks[h]) == h;
      assert w.hashing.root(Snapshot(t, h)) == w.hashing.root(req.next);
    } else {
      assert h != w.genesis;
      assert Snapshot(t, h) == map[];
    }
  }

  lemma StoringIsSound(w: World, t: Tables, req: Request)
    requires ValidWorld(w) && StoreSound(w, t) && Storable(w, req) && WellLinked(w, req.block)
    ensures StoreSound(w, WithBlock(t, w.hashing.block(req.block), req.block, req.next))
  {
    hide NoRepeats, ValidCertificate, ValidWorld, WellLinked;
    var h := w.hashing.block(req.block);
    var u := WithBlock(t, h, req.block, req.next);
    SnapshotIsNext(w, t, req);
    forall g | g in u.blocks ensures StoredWell(w, u, g) {
      if g == h {
        assert Snapshot(u, g) == req.next;
      } else {
        assert StoredWell(w, t, g) && Snapshot(u, g) == Snapshot(t, g);
      }
    }
  }

  /** Storing a block leaves the chain where it is. */
  lemma StoringKeepsChain(w: World, t: Tables, req: Request, chain: seq<Stored>)
    requires ValidWorld(w) && StoreSound(w, t) && Storable(w, req) && ChainSound(w, t, chain)
    ensures ChainSound(w, WithBlock(t, w.hashing.block(req.block), req.block, req.next), chain)
  {
    hide NoRepeats, ValidCertificate, TransactionsUnique, AllIndexable, IndexOf, Linked;
    SnapshotIsNext(w, t, req);
  }

  /** The rows of one stored block. */
  method BlockStorageOps(ghost t: Tables, h: Hash, b: Block, next: Accounts) returns (ops: seq<Operation>)
    ensures ApplyAll(t, ops) == WithBlock(t, h, b, next)
  {
    ops := [PutBlock(h, b)] + [PutSnapshot(h, next)];
    ApplyOne(t, [], PutBlock(h, b));
    assert [] + [PutBlock(h, b)] == [PutBlock(h, b)];
    ApplyOne(t, [PutBlock(h, b)], PutSnapshot(h, next));
  }

  // ----- Candidates -----

  ghost predicate CandidateAllowed(w: World, req: Request) {
    Storable(w, req)
  }

  function WithCandidate(w: World, s: State, req: Request): State {
    s.(tables := WithBlock(s.tables, w.hashing.block(req.block), req.block, req.next))
  }

  /** Saving a candidate keeps the invariant and changes nothing but block and snapshot rows. */
  lemma CandidateSound(w: World, s: State, req: Request)
    requires ValidWorld(w) && Sound(w, s) && CandidateAllowed(w, req) && WellLinked(w, req.block)
    ensures Sound(w, WithCandidate(w, s, req)) && Chain(WithCandidate(w, s, req)) == Chain(s)
  {
    var h, u := w.hashing.block(req.block), WithCandidate(w, s, req);
    StoringIsSound(w, s.tables, req);
    StoringKeepsChain(w, s.tables, req, Chain(s));
    SnapshotIsNext(w, s.tables, req);
    HeadSnapshotKept(w, s, req);
    assert SoundWith(w, u, Chain(s));
    ChainIsUnique(w, u, Chain(s));
  }

  lemma HeadSnapshotKept(w: World, s: State, req: Request)
    requires ValidWorld(w) && Sound(w, s) && Storable(w, req)
    ensures Snapshot(WithCandidate(w, s, req).tables, s.head.blockHash) == s.accounts
  {
    hide NoRepeats, ValidCertificate, TransactionsUnique, AllIndexable, FinalitySound, IndexOf;
    var h := w.hashing.block(req.block);
    SnapshotIsNext(w, s.tables, req);
    if h == s.head.blockHash {
      assert h != w.genesis;
      assert Chain(s) != [];
      assert h in s.tables.blocks;
      assert w.hashing.root(Snapshot(s.tables, h)) == w.hashing.root(req.next);
    }
  }

  // ----- Commit -----

  function FinalizedHashAt(s: State, finalizedHeight: nat): Option<Hash> {
    if finalizedHeight == 0 then Some(s.head.finalizedHash)
    else if finalizedHeight == s.head.height then Some(s.head.blockHash)
    else if finalizedHeight in s.tables.indexes.heights then Some(s.tables.indexes.heights[finalizedHeight])
    else None
  }

  predicate ExtendsHead(b: Block, head: Head) {
    b.chainId != "" && b.height == head.height + 1 && b.parent == head.blockHash && b.slot > head.slot
  }

  function RequestedQC(w: World, s: State, req: Request): Hash {
    if req.qc.Some? then w.hashing.canonicalQC(req.qc.value) else s.head.qcHash
  }

  function CommitQC(w: World, s: State, req: Request): Option<Hash> {
    AttachedQC(w, s.tables, w.hashing.block(req.block), req.block.height, RequestedQC(w, s, req))
  }

  ghost predicate CommitAllowed(w: World, s: State, req: Request) {
    && ExtendsHead(req.block, s.head)
    && Storable(w, req)
    && (forall id :: id in IdsOf(req.block) ==> id !in s.committed)
    && FinalizedHashAt(s, NextFinalizedHeight(s, req.block.height)).Some?
    && (req.qc.Some? ==> ValidCertificate(req.qc.value))
    && CommitQC(w, s, req).Some?
    && BlockIndexable(req.block) && req.block.rewardsIndexable
  }

  function CommittedHead(w: World, s: State, req: Request): Head
    requires FinalizedHashAt(s, NextFinalizedHeight(s, req.block.height)).Some? && CommitQC(w, s, req).Some?
  {
    var b := req.block;
    var finalized := NextFinalizedHeight(s, b.height);
    Head(b.chainId, b.height, b.slot, w.hashing.block(b), CommitQC(w, s, req).value, b.stateRoot, b.epoch,
         finalized, FinalizedHashAt(s, finalized).value)
  }

  function WithCommitQC(w: World, t: Tables, qc: Option<Certificate>, headQC: Hash): Tables {
    if qc.None? then t
    else
      var full := w.hashing.fullQC(qc.value);
      var u := t.(qcByHash := t.qcByHash[full := qc.value], qcByBlock := t.qcByBlock[qc.value.hash := qc.value]);
      if full != headQC then u.(qcByHash := u.qcByHash[headQC := qc.value]) else u
  }

  /** Block, snapshot, index, certificate, account and head rows, all in one transaction. */
  function CommitTables(w: World, t: Tables, req: Request, h: Hash, head: Head): Tables {
    var stored := WithBlock(t, h, req.block, req.next);
    var indexed := stored.(indexes := Extend(stored.indexes, Stored(h, req.block)));
    WithCommitQC(w, indexed, req.qc, head.qcHash).(accounts := t.accounts + req.next, head := head)
  }

  function Committed(w: World, s: State, req: Request): State
    requires FinalizedHashAt(s, NextFinalizedHeight(s, req.block.height)).Some? && CommitQC(w, s, req).Some?
  {
    var h, head := w.hashing.block(req.block), CommittedHead(w, s, req);
    s.(tables := CommitTables(w, s.tables, req, h, head), head := head, accounts := req.next,
       committed := AddIds(s.committed, IdsOf(req.block), h))
  }

  /** The transaction of a commit; fails when the block cannot be indexed. */
  method PersistCommit(w: World, t: Tables, req: Request, h: Hash, head: Head, ids: seq<TxId>)
    returns (r: Option<Tables>)
    requires ids == IdsOf(req.block) && head.height == req.block.height
    ensures r.Some? <==> BlockIndexable(req.block) && req.block.rewardsIndexable
    ensures r.Some? ==> r.value == CommitTables(w, t, req, h, head)
  {
    hide Apply, ApplyAll, WithBlock, Extend, WithCommitQC;
    var ops := BlockStorageOps(t, h, req.block, req.next);
    var indexed := AppendIndexOps(t, ops, Stored(h, req.block), ids);
    if indexed.None? {
      return None;
    }
    ops := AppendCommitQC(w, t, indexed.value, req.qc, head.qcHash);
    var rows := AppendAccountsAndHead(t, ops, req.next, head);
    CommitTablesAre(w, t, req, h, head);
    return Some(ApplyAll(t, rows));
  }

  method AppendAccountsAndHead(ghost t: Tables, ops: seq<Operation>, next: Accounts, head: Head) returns (r: seq<Operation>)
    ensures ApplyAll(t, r) == var s := ApplyAll(t, ops); s.(accounts := s.accounts + next, head := head)
  {
    hide ApplyAll;
    ApplyOne(t, ops, PutAccounts(next));
    ApplyOne(t, ops + [PutAccounts(next)], PutHead(head));
    return ops + [PutAccounts(next)] + [PutHead(head)];
  }

  /** The index rows of one block on top of the tables. */
  method AppendIndexOps(ghost t: Tables, ops: seq<Operation>, x: Stored, ids: seq<TxId>) returns (r: Option<seq<Operation>>)
    requires ids == IdsOf(x.block)
    ensures r.Some? <==> BlockIndexable(x.block) && x.block.rewardsIndexable
    ensures r.Some? ==> ApplyAll(t, r.value) == var s := ApplyAll(t, ops); s.(indexes := Extend(s.indexes, x))
  {
    hide ApplyAll, AddIds, AddEntries, Entries, BlockIndexable;
    ApplyOne(t, ops, PutHeight(x.block.height, x.hash));
    var rows := AppendTxPuts(t, ops + [PutHeight(x.block.height, x.hash)], ids, x.hash);
    var entries := AppendHistoryPuts(t, rows, x.block, x.hash);
    if entries.None? || !x.block.rewardsIndexable {
      return None;
    }
    return entries;
  }

  lemma CommitTablesAre(w: World, t: Tables, req: Request, h: Hash, head: Head)
    ensures var stored := WithBlock(t, h, req.block, req.next);
            var u := WithCommitQC(w, stored.(indexes := Extend(stored.indexes, Stored(h, req.block))), req.qc, head.qcHash);
            CommitTables(w, t, req, h, head) == u.(accounts := u.accounts + req.next, head := head)
  {
    hide Extend, WithCommitQC;
    var stored := WithBlock(t, h, req.block, req.next);
    CommitQCAccounts(w, stored.(indexes := Extend(stored.indexes, Stored(h, req.block))), req.qc, head.qcHash);
  }

  lemma CommitQCAccounts(w: World, t: Tables, qc: Option<Certificate>, headQC: Hash)
    ensures WithCommitQC(w, t, qc, headQC).accounts == t.accounts
  {
  }

  method AppendCommitQC(w: World, ghost t: Tables, ops: seq<Operation>, qc: Option<Certificate>, headQC: Hash)
    returns (r: seq<Operation>)
    ensures ApplyAll(t, r) == WithCommitQC(w, ApplyAll(t, ops), qc, headQC)
  {
    hide ApplyAll;
    r := ops;
    if qc.Some? {
      var full := w.hashing.fullQC(qc.value);
      ApplyOne(t, r, PutQCByHash(full, qc.value));
      r := r + [PutQCByHash(full, qc.value)];
      ApplyOne(t, r, PutQCByBlock(qc.value.hash, qc.value));
      r := r + [PutQCByBlock(qc.value.hash, qc.value)];
      if full != headQC {
        ApplyOne(t, r, PutQCByHash(headQC, qc.value));
        r := r + [PutQCByHash(headQC, qc.value)];
      }
    }
  }

  method AnyCommitted(ids: seq<TxId>, committed: map<TxId, Hash>) returns (found: bool)
    ensures found <==> exists id :: id in ids && id in committed
  {
    for i := 0 to |ids|
      invariant forall k :: 0 <= k < i ==> ids[k] !in committed
    {
      if ids[i] in committed {
        return true;
      }
    }
    return false;
  }

  /** Committing a block: every check, then one transaction. */
  method TryCommit(w: World, s: State, req: Request) returns (r: Option<State>)
    ensures r.Some? <==> CommitAllowed(w, s, req)
    ensures r.Some? ==> r.value == Committed(w, s, req)
  {
    hide NextFinalizedHeight, CommitTables, NoRepeats, ValidCertificate, AttachedQC;
    if !ExtendsHead(req.block, s.head) {
      return None;
    }
    var ids := TransactionIds(req.block);
    if ids.None? {
      return None;
    }
    var repeated := AnyCommitted(ids.value, s.committed);
    if repeated {
      return None;
    }
    var h := w.hashing.block(req.block);
    if w.hashing.root(req.next) != req.block.stateRoot {
      return None;
    }
    var finalized := NextFinalizedHeight(s, req.block.height);
    if FinalizedHashAt(s, finalized).None? {
      return None;
    }
    if req.qc.Some? {
      var valid := ValidateCertificate(req.qc.value);
      if !valid {
        return None;
      }
    }
    var qcHash := CommitQC(w, s, req);
    if qcHash.None? {
      return None;
    }
    var head := CommittedHead(w, s, req);
    var tables := PersistCommit(w, s.tables, req, h, head, ids.value);
    if tables.None? {
      return None;
    }
    return Some(s.(tables := tables.value, head := head, accounts := req.next, committed := AddIds(s.committed, ids.value, h)));
  }

  /** A block on the head fits its parent, because no other block has the head's hash. */
  lemma HeadChildIsLinked(w: World, s: State, b: Block)
    requires ValidWorld(w) && Sound(w, s) && ExtendsHead(b, s.head)
    ensures WellLinked(w, b)
  {
    var chain := Chain(s);
    forall p: Block | w.hashing.block(p) == b.parent ensures b.height == p.height + 1 {
      assert chain != [];
      var last := chain[|chain| - 1];
      assert w.hashing.block(last.block) == last.hash;
      assert p == last.block;
    }
    assert chain != [] ==> w.hashing.block(chain[|chain| - 1].block) == chain[|chain| - 1].hash;
  }

  /** One more stored block on the tip of a sound chain. */
  lemma LongerChainSound(w: World, t: Tables, chain: seq<Stored>, x: Stored)
    requires ChainSound(w, t, chain) && x.hash in t.blocks && t.blocks[x.hash] == x.block
    requires x.block.height == |chain| + 1 && x.block.parent == TipOf(w.genesis, chain)
    requires NoRepeats(IdsOf(x.block)) && BlockIndexable(x.block) && x.block.rewardsIndexable
    requires forall id :: id in IdsOf(x.block) ==> id !in t.indexes.txs
    ensures ChainSound(w, t.(indexes := Extend(t.indexes, x)), chain + [x])
  {
    IndexSnoc(w.genesis, chain, x);
    LinkedSnoc(w.genesis, chain, x);
    TxsOfChain(w.genesis, chain);
    UniqueSnoc(chain, x);
  }

  lemma IndexSnoc(genesis: Hash, chain: seq<Stored>, x: Stored)
    ensures IndexOf(genesis, chain + [x]) == Extend(IndexOf(genesis, chain), x)
  {
    assert (chain + [x])[..|chain + [x]| - 1] == chain;
  }

  lemma LinkedSnoc(genesis: Hash, chain: seq<Stored>, x: Stored)
    requires Linked(genesis, chain) && x.block.height == |chain| + 1 && x.block.parent == TipOf(genesis, chain)
    ensures Linked(genesis, chain + [x])
  {
    var longer := chain + [x];
    forall i: nat | i < |longer| ensures LinkedAt(genesis, longer, i) {
      assert longer[..i] == chain[..i];
      if i < |chain| {
        assert LinkedAt(genesis, chain, i);
      } else {
        assert chain[..i] == chain;
      }
    }
  }

  lemma UniqueSnoc(chain: seq<Stored>, x: Stored)
    requires TransactionsUnique(chain) && NoRepeats(IdsOf(x.block))
    requires forall i, id :: 0 <= i < |chain| && id in IdsOf(chain[i].block) ==> id !in IdsOf(x.block)
    ensures TransactionsUnique(chain + [x])
  {
    var longer := chain + [x];
    assert forall i :: 0 <= i < |chain| ==> longer[i] == chain[i];
  }

  /** Committing keeps the invariant and extends the chain by the block. */
  lemma CommitSound(w: World, s: State, req: Request)
    requires ValidWorld(w) && Sound(w, s) && CommitAllowed(w, s, req)
    ensures Sound(w, Committed(w, s, req))
    ensures Chain(Committed(w, s, req)) == Chain(s) + [Stored(w.hashing.block(req.block), req.block)]
  {
    var u := Committed(w, s, req);
    var longer := Chain(s) + [Stored(w.hashing.block(req.block), req.block)];
    HeadChildIsLinked(w, s, req.block);
    CommitStore(w, s, req);
    CommitChain(w, s, req, Chain(s));
    CommitMemory(w, s, req);
    CommitFinality(w, s, req);
    ChainIsUnique(w, u, longer);
  }

  lemma CommitStore(w: World, s: State, req: Request)
    requires ValidWorld(w) && StoreSound(w, s.tables) && CommitAllowed(w, s, req) && WellLinked(w, req.block)
    ensures StoreSound(w, Committed(w, s, req).tables)
  {
    hide CommitTables, StoreSound, ValidCertificate, NoRepeats, WellLinked, NextFinalizedHeight, AttachedQC;
    var h, u := w.hashing.block(req.block), Committed(w, s, req).tables;
    StoringIsSound(w, s.tables, req);
    CommittedTables(w, s.tables, req, h, CommittedHead(w, s, req));
    StoreFrame(w, WithBlock(s.tables, h, req.block, req.next), u);
  }

  /** Only block, snapshot and certificate rows matter to the store. */
  lemma StoreFrame(w: World, t: Tables, u: Tables)
    requires StoreSound(w, t) && u.blocks == t.blocks && u.snapshots == t.snapshots
    requires forall h :: h in u.qcByBlock ==> (h in t.qcByBlock && u.qcByBlock[h] == t.qcByBlock[h]) || ValidCertificate(u.qcByBlock[h])
    ensures StoreSound(w, u)
  {
    assert forall h :: h in u.blocks ==> Snapshot(u, h) == Snapshot(t, h);
  }

  /** Only block rows and indexes matter to the chain. */
  lemma ChainFrame(w: World, t: Tables, u: Tables, chain: seq<Stored>)
    requires ChainSound(w, t, chain) && u.blocks == t.blocks && u.indexes == t.indexes
    ensures ChainSound(w, u, chain)
  {
  }

  /** Which block the head is on, and what is stored for it, matters to memory; certificates and
      checkpoints do not. */
  lemma MemoryFrame(w: World, s: State, u: State, chain: seq<Stored>)
    requires MemorySound(w, s, chain)
    requires u.accounts == s.accounts && u.committed == s.committed && u.tables.head == u.head
    requires u.tables.snapshots == s.tables.snapshots && u.tables.indexes == s.tables.indexes
    requires u.tables.accounts == s.tables.accounts
    requires u.head.height == s.head.height && u.head.blockHash == s.head.blockHash && u.head.stateRoot == s.head.stateRoot
    ensures MemorySound(w, u, chain)
  {
  }

  /** What a commit leaves in the tables, certificates aside. */
  lemma CommittedTables(w: World, t: Tables, req: Request, h: Hash, head: Head)
    ensures var u := CommitTables(w, t, req, h, head);
            && u.blocks == t.blocks[h := req.block]
            && u.snapshots == t.snapshots[h := Snapshot(t, h) + req.next]
            && u.indexes == Extend(t.indexes, Stored(h, req.block))
            && u.accounts == t.accounts + req.next && u.head == head
    ensures var u := CommitTables(w, t, req, h, head);
            u.qcByBlock == if req.qc.Some? then t.qcByBlock[req.qc.value.hash := req.qc.value] else t.qcByBlock
  {
    hide Extend, WithCommitQC;
    var stored := WithBlock(t, h, req.block, req.next);
    CommitQCRows(w, stored.(indexes := Extend(stored.indexes, Stored(h, req.block))), req.qc, head.qcHash);
  }

  lemma CommitQCRows(w: World, t: Tables, qc: Option<Certificate>, headQC: Hash)
    ensures var u := WithCommitQC(w, t, qc, headQC);
            && u.blocks == t.blocks && u.snapshots == t.snapshots && u.indexes == t.indexes
            && u.qcByBlock == if qc.Some? then t.qcByBlock[qc.value.hash := qc.value] else t.qcByBlock
  {
  }

  lemma CommitChain(w: World, s: State, req: Request, chain: seq<Stored>)
    requires ValidWorld(w) && StoreSound(w, s.tables) && ChainSound(w, s.tables, chain) && MemorySound(w, s, chain)
    requires CommitAllowed(w, s, req)
    ensures ChainSound(w, Committed(w, s, req).tables, chain + [Stored(w.hashing.block(req.block), req.block)])
  {
    hide CommitTables, Extend;
    var h := w.hashing.block(req.block);
    var x := Stored(h, req.block);
    var t := WithBlock(s.tables, h, req.block, req.next);
    assert ChainSound(w, t, chain) by {
      StoringKeepsChain(w, s.tables, req, chain);
    }
    assert ChainSound(w, t.(indexes := Extend(t.indexes, x)), chain + [x]) by {
      CommitChainStep(w, s, req, t, chain, x);
    }
    CommittedTables(w, s.tables, req, h, CommittedHead(w, s, req));
    ChainFrame(w, t.(indexes := Extend(t.indexes, x)), Committed(w, s, req).tables, chain + [x]);
  }

  lemma CommitChainStep(w: World, s: State, req: Request, t: Tables, chain: seq<Stored>, x: Stored)
    requires CommitAllowed(w, s, req) && MemorySound(w, s, chain) && ChainSound(w, t, chain)
    requires t.indexes == s.tables.indexes && x.block == req.block && x.hash in t.blocks && t.blocks[x.hash] == x.block
    ensures ChainSound(w, t.(indexes := Extend(t.indexes, x)), chain + [x])
  {
    LongerChainSound(w, t, chain, x);
  }

  lemma CommitMemory(w: World, s: State, req: Request)
    requires ValidWorld(w) && StoreSound(w, s.tables) && MemorySound(w, s, Chain(s)) && CommitAllowed(w, s, req)
    ensures MemorySound(w, Committed(w, s, req), Chain(s) + [Stored(w.hashing.block(req.block), req.block)])
  {
    hide CommitTables, StoreSound, ValidCertificate, NoRepeats, NextFinalizedHeight, AttachedQC, Extend, BlockIndexable;
    SnapshotIsNext(w, s.tables, req);
    CommittedTables(w, s.tables, req, w.hashing.block(req.block), CommittedHead(w, s, req));
    ExtendTxs(s.tables.indexes, Stored(w.hashing.block(req.block), req.block));
  }

  lemma ExtendTxs(ix: Indexes, x: Stored)
    ensures Extend(ix, x).txs == AddIds(ix.txs, IdsOf(x.block), x.hash)
    ensures Extend(ix, x).heights == ix.heights[x.block.height := x.hash]
  {
  }

  lemma CommitFinality(w: World, s: State, req: Request)
    requires Sound(w, s) && CommitAllowed(w, s, req)
    ensures FinalitySound(Committed(w, s, req))
  {
    HeightsOfChain(w.genesis, Chain(s));
    CommitKeepsFinality(w, s, req);
  }

  lemma CommitKeepsFinality(w: World, s: State, req: Request)
    requires FinalitySound(s) && CommitAllowed(w, s, req) && 0 in s.tables.indexes.heights
    requires s.head.height in s.tables.indexes.heights && s.tables.indexes.heights[s.head.height] == s.head.blockHash
    ensures FinalitySound(Committed(w, s, req))
  {
    hide CommitTables, ValidCertificate, NoRepeats, AttachedQC, Extend, BlockIndexable;
    CommittedTables(w, s.tables, req, w.hashing.block(req.block), CommittedHead(w, s, req));
    ExtendTxs(s.tables.indexes, Stored(w.hashing.block(req.block), req.block));
    assert NextFinalizedHeight(s, req.block.height) <= s.head.height;
  }
}
