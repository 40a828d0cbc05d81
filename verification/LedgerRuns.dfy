/** Every run of the ledger: what all reachable states have in common, and what finality promises across states. */
module LedgerRuns {

  import opened AddressHistory
  import opened Blocks
  import opened ChainState
  import opened ForkChoice
  import opened LedgerCommit
  import opened LedgerIndex
  import opened LedgerQC
  import opened LedgerReload
  import opened LedgerReorg
  import opened LedgerSpec
  import opened LedgerStore
  import opened ReorgPlan
  import opened Votes
  import opened Wrappers

  datatype Action =
    | Commit(req: Request)
    | SaveCandidate(req: Request)
    | MoveTo(tip: Hash)
    | SaveQC(qc: Certificate)
    | Advance(height: nat, hash: Hash)
    | Suspend(suspended: bool)
    | Restart(depth: nat, recovery: bool)

  predicate AdvanceAllowed(s: State, height: nat, hash: Hash) {
    height <= s.head.height && height in s.tables.indexes.heights && s.tables.indexes.heights[height] == hash
  }

  function Advanced(s: State, height: nat, hash: Hash): State {
    var head := s.head.(finalizedHeight := height, finalizedHash := hash);
    s.(head := head, tables := s.tables.(head := head))
  }

  /** The state after moving to a tip that can be moved to. */
  ghost function MovedTo(w: World, s: State, tip: Hash): State {
    if Falling(s.tables.blocks) && Branch(s.tables.blocks, Trunk(s.tables), tip).Some? then
      var chain := NewChain(Chain(s), Branch(s.tables.blocks, Trunk(s.tables), tip).value);
      if && tip in s.tables.blocks
         && NextFinalizedHeight(s, s.tables.blocks[tip].height) in IndexOf(w.genesis, chain).heights
         && AttachedQC(w, s.tables, tip, s.tables.blocks[tip].height, s.head.qcHash).Some?
      then Reorganized(w, s, tip, chain) else s
    else s
  }

  /** One operation; a refused one changes nothing. */
  ghost function Next(w: World, s: State, a: Action): State {
    match a
    case Commit(req) => if CommitAllowed(w, s, req) then Committed(w, s, req) else s
    case SaveCandidate(req) => if CandidateAllowed(w, req) then WithCandidate(w, s, req) else s
    case MoveTo(tip) => if Reorganizable(w, s, tip) then MovedTo(w, s, tip) else s
    case SaveQC(qc) => if SaveAllowed(qc) then SavedQC(w, s, qc) else s
    case Advance(height, hash) => if AdvanceAllowed(s, height, hash) then Advanced(s, height, hash) else s
    case Suspend(suspended) => s.(suspended := suspended)
    case Restart(depth, recovery) => if RestartAllowed(s, recovery) then Reloaded(s, depth) else s
  }

  /** Candidates fit their parents; nothing else is asked of callers. */
  ghost predicate Legal(w: World, a: Action) {
    a.SaveCandidate? ==> WellLinked(w, a.req.block)
  }

  /** A checkpoint is not moved below the finalized height. */
  predicate Forward(s: State, a: Action) {
    a.Advance? ==> a.height >= s.head.finalizedHeight
  }

  // ----- One step -----

  lemma MoveIsReorg(w: World, s: State, tip: Hash) returns (branch: seq<Stored>)
    requires ValidWorld(w) && Sound(w, s) && Reorganizable(w, s, tip)
    ensures ReorgAllowed(w, s, tip, branch)
    ensures NextFinalizedHeight(s, s.tables.blocks[tip].height) in IndexOf(w.genesis, NewChain(Chain(s), branch)).heights
    ensures MovedTo(w, s, tip) == Reorganized(w, s, tip, NewChain(Chain(s), branch))
  {
    branch :| ReorgAllowed(w, s, tip, branch);
    ReorgFinalizedHeight(w, s, tip, branch);
  }

  lemma AdvanceSound(w: World, s: State, height: nat, hash: Hash)
    requires Sound(w, s) && AdvanceAllowed(s, height, hash)
    ensures Sound(w, Advanced(s, height, hash)) && Chain(Advanced(s, height, hash)) == Chain(s)
  {
    hide Linked, TransactionsUnique, IndexOf, NoRepeats, AllIndexable;
    var u := Advanced(s, height, hash);
    StoreFrame(w, s.tables, u.tables);
    ChainFrame(w, s.tables, u.tables, Chain(s));
    assert Snapshot(u.tables, s.head.blockHash) == Snapshot(s.tables, s.head.blockHash);
    assert SoundWith(w, u, Chain(s));
    ChainIsUnique(w, u, Chain(s));
  }

  lemma SuspendSound(w: World, s: State, suspended: bool)
    requires Sound(w, s)
    ensures Sound(w, s.(suspended := suspended)) && Chain(s.(suspended := suspended)) == Chain(s)
  {
    hide Linked, TransactionsUnique, IndexOf, NoRepeats, AllIndexable;
    assert SoundWith(w, s.(suspended := suspended), Chain(s));
  }

  /** Every operation keeps the invariant. */
  lemma NextSound(w: World, s: State, a: Action)
    requires ValidWorld(w) && Sound(w, s) && Legal(w, a)
    ensures Sound(w, Next(w, s, a))
  {
    hide Sound, CommitAllowed, Committed, CandidateAllowed, WithCandidate, ReorgAllowed, MovedTo, Reorganized,
         SaveAllowed, SavedQC, AdvanceAllowed, Advanced, RestartAllowed, Reloaded, ValidWorld, WellLinked;
    match a
    case Commit(req) => if CommitAllowed(w, s, req) { CommitSound(w, s, req); }
    case SaveCandidate(req) => if CandidateAllowed(w, req) { CandidateSound(w, s, req); }
    case MoveTo(tip) =>
      if Reorganizable(w, s, tip) {
        var branch := MoveIsReorg(w, s, tip);
        ReorgSound(w, s, tip, branch);
      }
    case SaveQC(qc) => if SaveAllowed(qc) { QCSound(w, s, qc); }
    case Advance(height, hash) => if AdvanceAllowed(s, height, hash) { AdvanceSound(w, s, height, hash); }
    case Suspend(suspended) => SuspendSound(w, s, suspended);
    case Restart(depth, recovery) => if RestartAllowed(s, recovery) { ReloadSound(w, s, depth); }
  }

  /** The two states agree on the main chain up to the height the first has finalized, and finality does not fall. */
  ghost predicate Keeps(s: State, u: State) {
    && s.head.finalizedHeight <= u.head.finalizedHeight
    && forall n: nat :: n <= s.head.finalizedHeight ==>
         && n in s.tables.indexes.heights && n in u.tables.indexes.heights
         && u.tables.indexes.heights[n] == s.tables.indexes.heights[n]
  }

  lemma SameHeightsKeep(w: World, s: State, u: State)
    requires Sound(w, s) && u.tables.indexes == s.tables.indexes && s.head.finalizedHeight <= u.head.finalizedHeight
    ensures Keeps(s, u)
  {
    hide StoreSound, ChainSound, MemorySound;
    ChainHeights(w, s);
  }

  lemma CommitKeeps(w: World, s: State, req: Request)
    requires Sound(w, s) && CommitAllowed(w, s, req)
    ensures Keeps(s, Committed(w, s, req))
  {
    hide CommitTables, ValidCertificate, NoRepeats, AttachedQC, Extend, BlockIndexable;
    var h := w.hashing.block(req.block);
    ChainHeights(w, s);
    CommittedTables(w, s.tables, req, h, CommittedHead(w, s, req));
    ExtendTxs(s.tables.indexes, Stored(h, req.block));
  }

  lemma MoveKeeps(w: World, s: State, tip: Hash)
    requires ValidWorld(w) && Sound(w, s) && Reorganizable(w, s, tip)
    ensures Keeps(s, MovedTo(w, s, tip))
  {
    var branch := MoveIsReorg(w, s, tip);
    SharedHeights(w, s, tip, branch);
  }

  /** No operation moves finality back or replaces a finalized block. */
  lemma NextKeeps(w: World, s: State, a: Action)
    requires ValidWorld(w) && Sound(w, s) && Legal(w, a) && Forward(s, a)
    ensures Keeps(s, Next(w, s, a))
  {
    hide Sound, CommitAllowed, Committed, CandidateAllowed, ReorgAllowed, MovedTo, SaveAllowed, SavedQC, Keeps,
         AdvanceAllowed, RestartAllowed, ValidWorld, WellLinked;
    match a
    case Commit(req) => if CommitAllowed(w, s, req) { CommitKeeps(w, s, req); } else { SameHeightsKeep(w, s, s); }
    case SaveCandidate(req) => SameHeightsKeep(w, s, Next(w, s, a));
    case MoveTo(tip) => if Reorganizable(w, s, tip) { MoveKeeps(w, s, tip); } else { SameHeightsKeep(w, s, s); }
    case SaveQC(qc) =>
      if SaveAllowed(qc) {
        QCRowsValid(w, s, qc);
      }
      SameHeightsKeep(w, s, Next(w, s, a));
    case Advance(height, hash) => SameHeightsKeep(w, s, Next(w, s, a));
    case Suspend(suspended) => SameHeightsKeep(w, s, Next(w, s, a));
    case Restart(depth, recovery) => SameHeightsKeep(w, s, Next(w, s, a));
  }

  // ----- Runs -----

  ghost function After(w: World, s: State, actions: seq<Action>): State {
    if actions == [] then s else Next(w, After(w, s, actions[..|actions| - 1]), actions[|actions| - 1])
  }

  ghost predicate AllLegal(w: World, actions: seq<Action>) {
    forall i :: 0 <= i < |actions| ==> Legal(w, actions[i])
  }

  ghost predicate AllForward(w: World, s: State, actions: seq<Action>) {
    forall i :: 0 <= i < |actions| ==> Forward(After(w, s, actions[..i]), actions[i])
  }

  /** Over every run the height table is exactly the parent-linked path from genesis to the head, the
      indexes and memory are those of that path, and the finalized block is on it. */
  lemma {:induction false} RunSound(w: World, s: State, actions: seq<Action>)
    requires ValidWorld(w) && Sound(w, s) && AllLegal(w, actions)
    ensures Sound(w, After(w, s, actions))
  {
    hide Sound, Next, ValidWorld, Legal;
    if actions != [] {
      var n := |actions| - 1;
      RunSound(w, s, actions[..n]);
      NextSound(w, After(w, s, actions[..n]), actions[n]);
    }
  }

  /** Spelled out: after every run the height table has exactly the heights up to the head, starts at
      genesis, ends at the head, and names at each height a stored block of that height whose parent is
      named one below. */
  lemma HeightTableAfterRun(w: World, s: State, actions: seq<Action>, n: nat)
    requires ValidWorld(w) && Sound(w, s) && AllLegal(w, actions)
    ensures var now := After(w, s, actions); var heights := now.tables.indexes.heights;
            && (n in heights <==> n <= now.head.height)
            && 0 in heights && heights[0] == w.genesis
            && now.head.height in heights && heights[now.head.height] == now.head.blockHash
            && (1 <= n <= now.head.height ==>
                  && heights[n] in now.tables.blocks && now.tables.blocks[heights[n]].height == n
                  && n - 1 in heights && now.tables.blocks[heights[n]].parent == heights[n - 1])
  {
    hide Sound, After, MainBlocks;
    RunSound(w, s, actions);
    var now := After(w, s, actions);
    ChainHeights(w, now);
    if 1 <= n <= now.head.height {
      MainBlockAt(w, now, n);
    }
  }

  /** Spelled out: after every run the height, transaction and address-history tables and the map in memory
      are what a rebuild from the height table gives, and no transaction is in two main-chain blocks. */
  lemma IndexesAfterRun(w: World, s: State, actions: seq<Action>)
    requires ValidWorld(w) && Sound(w, s) && AllLegal(w, actions)
    ensures var now := After(w, s, actions); var chain := MainBlocks(now.tables, now.head.height);
            && now.tables.indexes == IndexOf(w.genesis, chain) && now.committed == IndexOf(w.genesis, chain).txs
            && TransactionsUnique(chain)
  {
    hide After, StoreSound, IndexOf, TransactionsUnique, FinalitySound, Linked, AllIndexable;
    RunSound(w, s, actions);
  }

  lemma KeepsTransitive(s: State, t: State, u: State)
    requires Keeps(s, t) && Keeps(t, u)
    ensures Keeps(s, u)
  {
  }

  /** Finalized blocks are permanent: whatever a run does after `m` operations, the finalized height
      does not fall and the main chain up to it stays. */
  lemma {:induction false} FinalizedForever(w: World, s: State, actions: seq<Action>, m: nat)
    requires ValidWorld(w) && Sound(w, s) && AllLegal(w, actions) && AllForward(w, s, actions) && m <= |actions|
    ensures Keeps(After(w, s, actions[..m]), After(w, s, actions))
    decreases |actions|
  {
    hide Sound, Next, Keeps, ValidWorld, Legal, Forward;
    if m == |actions| {
      assert actions[..m] == actions;
      RunSound(w, s, actions);
      SameHeightsKeep(w, After(w, s, actions), After(w, s, actions));
    } else {
      var n := |actions| - 1;
      var front := actions[..n];
      assert forall i :: 0 <= i < n ==> front[..i] == actions[..i];
      FinalizedForever(w, s, front, m);
      assert front[..m] == actions[..m];
      RunSound(w, s, front);
      assert actions[..n] == front;
      NextKeeps(w, After(w, s, front), actions[n]);
      KeepsTransitive(After(w, s, actions[..m]), After(w, s, front), After(w, s, actions));
    }
  }

  /** The pair of finalized height and hash, once reached, is in every later height table. */
  lemma FinalizedPairStays(w: World, s: State, actions: seq<Action>, m: nat)
    requires ValidWorld(w) && Sound(w, s) && AllLegal(w, actions) && AllForward(w, s, actions) && m <= |actions|
    ensures var earlier := After(w, s, actions[..m]).head; var now := After(w, s, actions);
            && earlier.finalizedHeight in now.tables.indexes.heights
            && now.tables.indexes.heights[earlier.finalizedHeight] == earlier.finalizedHash
            && now.head.finalizedHeight <= now.head.height
  {
    hide Next, StoreSound, ChainSound, MemorySound;
    FinalizedForever(w, s, actions, m);
    RunSound(w, s, actions);
    var front := actions[..m];
    RunSound(w, s, front);
  }

  /** Finality falls in exactly one way: a checkpoint advance to a main-chain block below it. */
  lemma FinalityFallsOnlyByAdvance(w: World, s: State, a: Action)
    requires ValidWorld(w) && Sound(w, s) && Legal(w, a)
    ensures Next(w, s, a).head.finalizedHeight < s.head.finalizedHeight <==>
            a.Advance? && a.height < s.head.finalizedHeight && AdvanceAllowed(s, a.height, a.hash)
  {
    if Forward(s, a) {
      NextKeeps(w, s, a);
    }
  }

  /** A restart after any run gives back the live head, accounts, transaction index and tables, unless the
      accounts are empty while the account table is not, or rows are stale and recovery is off. */
  lemma RestartAfterRun(w: World, s: State, actions: seq<Action>, depth: nat, recovery: bool)
    requires ValidWorld(w) && Sound(w, s) && AllLegal(w, actions)
    ensures var live := After(w, s, actions);
            && (LoadedAccounts(w, live.tables, recovery).Some? <==> RestartAllowed(live, recovery))
            && (RestartAllowed(live, recovery) ==>
                  var again := Next(w, live, Restart(depth, recovery));
                  && again.head == live.head && again.accounts == live.accounts && again.committed == live.committed
                  && again.tables == live.tables.(accounts := live.accounts)
                  && LoadedAccounts(w, live.tables, recovery) == Some(live.accounts))
  {
    hide Sound, After, LoadedAccounts, Stale;
    RunSound(w, s, actions);
    LoadFindsLiveAccounts(w, After(w, s, actions), recovery);
  }

  // ----- Where the source promises more than it keeps -----

  /** Once anything is finalized, advancing the checkpoint to genesis takes it back. */
  lemma AdvanceCanLowerFinality(w: World, s: State)
    requires Sound(w, s) && s.head.finalizedHeight > 0
    ensures Next(w, s, Advance(0, w.genesis)).head.finalizedHeight == 0
  {
    hide Sound;
    ChainHeights(w, s);
  }

  /** A first block that empties a non-empty genesis state. */
  function EmptyingRequest(w: World): Request {
    Request(Block("chain", 1, 1, 0, w.genesis, w.hashing.root(map[]), [], true, 0), map[], None)
  }

  /** A ledger whose live state is empty but whose account table is not cannot be restarted, recovery or not. */
  lemma EmptyStateCannotRestart(w: World, chainId: string, accounts: Accounts, depth: nat, recovery: bool)
    requires ValidWorld(w) && w.hashing.root(accounts) == w.genesis && accounts != map[]
    ensures var s := Genesis(w, chainId, accounts, depth);
            && CommitAllowed(w, s, EmptyingRequest(w))
            && LoadedAccounts(w, Committed(w, s, EmptyingRequest(w)).tables, recovery).None?
  {
    var s := Genesis(w, chainId, accounts, depth);
    GenesisSound(w, chainId, accounts, depth);
    var req := EmptyingRequest(w);
    assert IdsOf(req.block) == [];
    CommitSound(w, s, req);
    LoadFindsLiveAccounts(w, Committed(w, s, req), recovery);
  }
}
