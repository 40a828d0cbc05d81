/** Where the head goes: which blocks and tips it moves to, that it never comes back, and how far behind it blocks
    are final. */
module LedgerProgress {

  import opened AddressHistory
  import opened Blocks
  import opened ChainState
  import opened ForkChoice
  import opened LedgerCommit
  import opened LedgerIndex
  import opened LedgerQC
  import opened LedgerReload
  import opened LedgerReorg
  import opened LedgerRuns
  import opened LedgerSpec
  import opened LedgerStore
  import opened Votes
  import opened Wrappers

  // ----- Which tips are moved to -----

  /** The certificate stored for a block, if any, names the block and its height. */
  predicate CertificateAgrees(t: Tables, h: Hash, height: nat) {
    h != ZERO_HASH && h in t.qcByBlock ==> t.qcByBlock[h].hash == h && t.qcByBlock[h].height == height
  }

  /** The branch to a tip can replace what is above the block it leaves at. */
  ghost predicate CanJoin(w: World, s: State, branch: seq<Stored>) {
    && |branch| > 0
    && s.head.finalizedHeight < branch[0].block.height <= |Chain(s)| + 1
    && TransactionsUnique(Chain(s)[..branch[0].block.height - 1] + branch)
    && AllIndexable(branch)
  }

  /** The fork choice, spelled out: a stored tip is moved to exactly when a branch of stored blocks joins it to the main
      chain not below the finalized height, without repeating a transaction, its certificate agrees, and it is higher
      than the head, or as high with the smaller hash. */
  lemma MoveExactlyWhen(w: World, s: State, tip: Hash)
    requires ValidWorld(w) && Sound(w, s) && Falling(s.tables.blocks) && tip in s.tables.blocks
    ensures var b := s.tables.blocks[tip];
            Reorganizable(w, s, tip) <==>
            && (b.height > s.head.height || (b.height == s.head.height && w.hashing.textLess(tip, s.head.blockHash)))
            && Branch(s.tables.blocks, s.tables.indexes.heights.Values, tip).Some?
            && CanJoin(w, s, Branch(s.tables.blocks, s.tables.indexes.heights.Values, tip).value)
            && CertificateAgrees(s.tables, tip, b.height)
  {
    hide Sound, ValidWorld, TransactionsUnique, AllIndexable, Falling;
    ChainHeights(w, s);
    var branch := Branch(s.tables.blocks, Trunk(s.tables), tip);
    if branch.Some? {
      BranchRoot(w, s, tip, branch.value);
    }
    assert AttachedQC(w, s.tables, tip, s.tables.blocks[tip].height, s.head.qcHash).Some? <==>
           CertificateAgrees(s.tables, tip, s.tables.blocks[tip].height);
    if Reorganizable(w, s, tip) {
      var br :| ReorgAllowed(w, s, tip, br);
    } else if branch.Some? {
      assert !ReorgAllowed(w, s, tip, branch.value);
    }
  }

  // ----- The head never comes back -----

  /** Higher, or as high with the smaller hash. */
  predicate Higher(w: World, a: Head, b: Head) {
    a.height > b.height || (a.height == b.height && w.hashing.textLess(a.blockHash, b.blockHash))
  }

  predicate SameBlock(a: Head, b: Head) {
    a.height == b.height && a.blockHash == b.blockHash
  }

  lemma HigherTransitive(w: World, a: Head, b: Head, c: Head)
    requires ValidWorld(w) && Higher(w, a, b) && Higher(w, b, c)
    ensures Higher(w, a, c)
  {
  }

  lemma HigherIsOther(w: World, a: Head, b: Head)
    requires ValidWorld(w) && Higher(w, a, b)
    ensures !SameBlock(a, b)
  {
  }

  lemma MoveRises(w: World, s: State, tip: Hash)
    requires ValidWorld(w) && Sound(w, s) && Reorganizable(w, s, tip)
    ensures var u := Next(w, s, MoveTo(tip));
            tip in s.tables.blocks && u.head.blockHash == tip && u.head.height == s.tables.blocks[tip].height && Higher(w, u.head, s.head)
  {
    hide Sound, ValidWorld, TransactionsUnique, AllIndexable, IndexOf, Branch, Falling;
    var branch := MoveIsReorg(w, s, tip);
  }

  lemma CommitRises(w: World, s: State, req: Request)
    requires CommitAllowed(w, s, req)
    ensures var u := Next(w, s, Commit(req));
            && u.head.blockHash == w.hashing.block(req.block) && u.head.height == s.head.height + 1
            && u.head.slot > s.head.slot && Higher(w, u.head, s.head)
  {
    hide CommitTables, ValidCertificate, NoRepeats, AttachedQC, BlockIndexable, AddIds;
  }

  /** No operation moves the head but to a higher block. */
  lemma NextRises(w: World, s: State, a: Action)
    requires ValidWorld(w) && Sound(w, s)
    ensures SameBlock(Next(w, s, a).head, s.head) || Higher(w, Next(w, s, a).head, s.head)
  {
    hide Sound, ValidWorld, CommitAllowed, Committed, CandidateAllowed, ReorgAllowed, MovedTo, SaveAllowed, SavedQC,
         AdvanceAllowed, RestartAllowed, Higher;
    match a
    case Commit(req) => if CommitAllowed(w, s, req) { CommitRises(w, s, req); }
    case MoveTo(tip) => if Reorganizable(w, s, tip) { MoveRises(w, s, tip); }
    case SaveQC(qc) => if SaveAllowed(qc) { QCRowsValid(w, s, qc); }
    case _ =>
  }

  /** Over every run the head is where it was, or higher. */
  lemma {:induction false} RunRises(w: World, s: State, actions: seq<Action>)
    requires ValidWorld(w) && Sound(w, s) && AllLegal(w, actions)
    ensures SameBlock(After(w, s, actions).head, s.head) || Higher(w, After(w, s, actions).head, s.head)
  {
    hide Sound, ValidWorld, Next, Legal, Higher;
    if actions != [] {
      var n := |actions| - 1;
      RunRises(w, s, actions[..n]);
      var before, now := After(w, s, actions[..n]), After(w, s, actions);
      RunSound(w, s, actions[..n]);
      NextRises(w, before, actions[n]);
      if Higher(w, now.head, before.head) && Higher(w, before.head, s.head) {
        HigherTransitive(w, now.head, before.head, s.head);
      }
      if Higher(w, before.head, s.head) && SameBlock(now.head, before.head) {
        SameIsHigher(w, now.head, before.head, s.head);
      }
      if Higher(w, now.head, before.head) && SameBlock(before.head, s.head) {
        HigherThanSame(w, now.head, before.head, s.head);
      }
    }
  }

  lemma SameIsHigher(w: World, a: Head, b: Head, c: Head)
    requires SameBlock(a, b) && Higher(w, b, c)
    ensures Higher(w, a, c)
  {
  }

  lemma HigherThanSame(w: World, a: Head, b: Head, c: Head)
    requires Higher(w, a, b) && SameBlock(b, c)
    ensures Higher(w, a, c)
  {
  }

  /** A ledger that left a head never has it again. */
  lemma HeadNeverReturns(w: World, s: State, first: seq<Action>, later: seq<Action>)
    requires ValidWorld(w) && Sound(w, s) && AllLegal(w, first + later)
    requires !SameBlock(After(w, s, first).head, s.head)
    ensures !SameBlock(After(w, After(w, s, first), later).head, s.head)
  {
    hide Sound, ValidWorld, After, Legal, Higher, SameBlock;
    var middle := After(w, s, first);
    var last := After(w, middle, later);
    SplitLegal(w, first, later);
    RunSound(w, s, first);
    RunRises(w, s, first);
    RunRises(w, middle, later);
    if SameBlock(last.head, middle.head) {
      SameIsHigher(w, last.head, middle.head, s.head);
    } else {
      HigherTransitive(w, last.head, middle.head, s.head);
    }
    HigherIsOther(w, last.head, s.head);
  }

  lemma SplitLegal(w: World, first: seq<Action>, later: seq<Action>)
    requires AllLegal(w, first + later)
    ensures AllLegal(w, first) && AllLegal(w, later)
  {
    hide Legal;
    assert forall i :: 0 <= i < |first| ==> (first + later)[i] == first[i];
    forall i | 0 <= i < |later| ensures Legal(w, later[i]) {
      assert (first + later)[|first| + i] == later[i];
    }
  }

  // ----- Finality depth -----

  function Max(a: int, b: int): int {
    if a >= b then a else b
  }

  /** How many blocks a ledger keeps open behind its head; a depth of zero means two. */
  function OpenBlocks(s: State): nat {
    if s.finalityDepth == 0 then 2 else s.finalityDepth
  }

  lemma CommitFinalizes(w: World, s: State, req: Request)
    requires CommitAllowed(w, s, req)
    ensures var u := Next(w, s, Commit(req));
            u.head.finalizedHeight ==
            if s.suspended then s.head.finalizedHeight else Max(s.head.finalizedHeight, u.head.height - OpenBlocks(s))
  {
    hide CommitTables, ValidCertificate, NoRepeats, AttachedQC, BlockIndexable, AddIds, FinalizedHashAt;
  }

  lemma MoveFinalizes(w: World, s: State, tip: Hash)
    requires ValidWorld(w) && Sound(w, s) && Reorganizable(w, s, tip)
    ensures var u := Next(w, s, MoveTo(tip));
            u.head.finalizedHeight ==
            if s.suspended then s.head.finalizedHeight else Max(s.head.finalizedHeight, u.head.height - OpenBlocks(s))
  {
    hide Sound, ValidWorld, TransactionsUnique, AllIndexable, IndexOf, Branch, Falling;
    var branch := MoveIsReorg(w, s, tip);
  }

  /** What an operation makes of the finalized height: accepted commits and moves raise it to the finality depth below
      the new head, unless suspended; an accepted advance sets it; nothing else touches it. */
  lemma FinalityRule(w: World, s: State, a: Action)
    requires ValidWorld(w) && Sound(w, s)
    ensures var u := Next(w, s, a);
            u.head.finalizedHeight ==
            if a.Advance? && a.height <= s.head.height && a.height in s.tables.indexes.heights
               && s.tables.indexes.heights[a.height] == a.hash then a.height
            else if SameBlock(u.head, s.head) || s.suspended then s.head.finalizedHeight
            else Max(s.head.finalizedHeight, u.head.height - OpenBlocks(s))
  {
    hide Sound, ValidWorld, CommitAllowed, Committed, CandidateAllowed, ReorgAllowed, MovedTo, SaveAllowed, SavedQC,
         RestartAllowed, Higher, SameBlock, Max;
    match a
    case Commit(req) =>
      if CommitAllowed(w, s, req) {
        CommitFinalizes(w, s, req);
        CommitRises(w, s, req);
        HigherIsOther(w, Next(w, s, a).head, s.head);
      } else {
        Unmoved(s);
      }
    case MoveTo(tip) =>
      if Reorganizable(w, s, tip) {
        MoveFinalizes(w, s, tip);
        MoveRises(w, s, tip);
        HigherIsOther(w, Next(w, s, a).head, s.head);
      } else {
        Unmoved(s);
      }
    case SaveQC(qc) =>
      if SaveAllowed(qc) {
        QCRowsValid(w, s, qc);
      }
      SameBlocks(Next(w, s, a).head, s.head);
    case _ => SameBlocks(Next(w, s, a).head, s.head);
  }

  lemma Unmoved(s: State)
    ensures SameBlock(s.head, s.head)
  {
  }

  lemma SameBlocks(a: Head, b: Head)
    requires a.height == b.height && a.blockHash == b.blockHash
    ensures SameBlock(a, b)
  {
  }

  /** Commits, candidates, moves and certificates. */
  predicate Ordinary(a: Action) {
    a.Commit? || a.SaveCandidate? || a.MoveTo? || a.SaveQC?
  }

  lemma OrdinaryKeepsDepth(w: World, s: State, a: Action)
    requires Ordinary(a)
    ensures Next(w, s, a).finalityDepth == s.finalityDepth && Next(w, s, a).suspended == s.suspended
  {
    hide CommitAllowed, CommitTables, CommittedHead, CandidateAllowed, ReorgAllowed, SaveAllowed, WithQC, ShouldPromote, BestQC, IndexOf, AddIds;
  }

  /** Over every run of ordinary operations, in a ledger that is not suspended and has finalized what its depth allows:
      the finalized height is the head's height less the depth, or what was final before if that is more. */
  lemma {:induction false} FinalityFollowsHead(w: World, s: State, actions: seq<Action>)
    requires ValidWorld(w) && Sound(w, s) && AllLegal(w, actions) && forall i :: 0 <= i < |actions| ==> Ordinary(actions[i])
    requires !s.suspended && s.head.finalizedHeight >= s.head.height - OpenBlocks(s)
    ensures var u := After(w, s, actions);
            && u.finalityDepth == s.finalityDepth && !u.suspended && u.head.height >= s.head.height
            && u.head.finalizedHeight == Max(s.head.finalizedHeight, u.head.height - OpenBlocks(s))
  {
    hide Sound, ValidWorld, Next, Legal;
    if actions != [] {
      var n := |actions| - 1;
      FinalityFollowsHead(w, s, actions[..n]);
      var before := After(w, s, actions[..n]);
      RunSound(w, s, actions[..n]);
      OrdinaryKeepsDepth(w, before, actions[n]);
      NextRises(w, before, actions[n]);
      FinalityRule(w, before, actions[n]);
    }
  }

  /** From genesis: exactly the blocks deeper than the finality depth are final. */
  lemma FinalFromGenesis(w: World, chainId: string, accounts: Accounts, depth: nat, actions: seq<Action>)
    requires ValidWorld(w) && w.hashing.root(accounts) == w.genesis
    requires AllLegal(w, actions) && forall i :: 0 <= i < |actions| ==> Ordinary(actions[i])
    ensures var u := After(w, Genesis(w, chainId, accounts, depth), actions);
            u.head.finalizedHeight == Max(0, u.head.height - (if depth == 0 then 2 else depth))
  {
    hide Sound, ValidWorld, After, Legal, Genesis;
    GenesisOpen(w, chainId, accounts, depth);
    GenesisSound(w, chainId, accounts, depth);
    FinalityFollowsHead(w, Genesis(w, chainId, accounts, depth), actions);
  }

  lemma GenesisOpen(w: World, chainId: string, accounts: Accounts, depth: nat)
    ensures var s := Genesis(w, chainId, accounts, depth);
            && !s.suspended && s.head.height == 0 && s.head.finalizedHeight == 0
            && OpenBlocks(s) == if depth == 0 then 2 else depth
  {
  }

  // ----- The head describes its block -----

  /** Chain, height, slot, epoch and state root of the head are those of the block it names. */
  ghost predicate DescribesBlock(s: State) {
    s.head.height > 0 ==>
      && s.head.blockHash in s.tables.blocks
      && var b := s.tables.blocks[s.head.blockHash];
      && s.head.chainId == b.chainId && s.head.height == b.height && s.head.slot == b.slot
      && s.head.epoch == b.epoch && s.head.stateRoot == b.stateRoot
  }

  lemma CommitDescribes(w: World, s: State, req: Request)
    requires CommitAllowed(w, s, req)
    ensures DescribesBlock(Next(w, s, Commit(req)))
  {
    hide ValidCertificate, NoRepeats, AttachedQC, BlockIndexable, AddIds, FinalizedHashAt, NextFinalizedHeight, Extend;
  }

  lemma MoveDescribes(w: World, s: State, tip: Hash)
    requires ValidWorld(w) && Sound(w, s) && Reorganizable(w, s, tip)
    ensures DescribesBlock(Next(w, s, MoveTo(tip)))
  {
    hide Sound, ValidWorld, TransactionsUnique, AllIndexable, IndexOf, Branch, Falling, NextFinalizedHeight;
    var branch := MoveIsReorg(w, s, tip);
  }

  lemma CandidateDescribes(w: World, s: State, req: Request)
    requires ValidWorld(w) && Sound(w, s) && DescribesBlock(s) && CandidateAllowed(w, req)
    ensures DescribesBlock(Next(w, s, SaveCandidate(req)))
  {
    hide ChainSound, MemorySound, FinalitySound, NoRepeats;
    if s.head.height > 0 {
      assert StoredWell(w, s.tables, s.head.blockHash);
    }
  }

  lemma NextDescribes(w: World, s: State, a: Action)
    requires ValidWorld(w) && Sound(w, s) && DescribesBlock(s)
    ensures DescribesBlock(Next(w, s, a))
  {
    hide Sound, ValidWorld, CommitAllowed, Committed, CandidateAllowed, ReorgAllowed, MovedTo, SaveAllowed, SavedQC,
         RestartAllowed, WithCandidate;
    match a
    case Commit(req) => if CommitAllowed(w, s, req) { CommitDescribes(w, s, req); }
    case SaveCandidate(req) => if CandidateAllowed(w, req) { CandidateDescribes(w, s, req); }
    case MoveTo(tip) => if Reorganizable(w, s, tip) { MoveDescribes(w, s, tip); }
    case SaveQC(qc) => if SaveAllowed(qc) { QCRowsValid(w, s, qc); }
    case _ =>
  }

  /** Over every run the head describes the block it names. */
  lemma {:induction false} RunDescribes(w: World, s: State, actions: seq<Action>)
    requires ValidWorld(w) && Sound(w, s) && AllLegal(w, actions) && DescribesBlock(s)
    ensures DescribesBlock(After(w, s, actions))
  {
    hide Sound, ValidWorld, Next, Legal, DescribesBlock;
    if actions != [] {
      var n := |actions| - 1;
      RunDescribes(w, s, actions[..n]);
      RunSound(w, s, actions[..n]);
      NextDescribes(w, After(w, s, actions[..n]), actions[n]);
    }
  }

  // ----- Which blocks are committed -----

  /** The commit, spelled out against the main chain: the block is the head's child in a later slot, its state root is
      that of the accounts it comes with, no transaction of it is repeated or on the main chain, its certificates are
      valid and agree, and it can be indexed. Nothing else is asked; the look-up of the finalized hash never fails. */
  lemma CommitExactlyWhen(w: World, s: State, req: Request)
    requires ValidWorld(w) && Sound(w, s)
    ensures var b := req.block;
            CommitAllowed(w, s, req) <==>
            && b.chainId != "" && b.height == s.head.height + 1 && b.parent == s.head.blockHash && b.slot > s.head.slot
            && w.hashing.root(req.next) == b.stateRoot && NoRepeats(IdsOf(b))
            && (forall i, id :: 0 <= i < |Chain(s)| && id in IdsOf(b) ==> id !in IdsOf(Chain(s)[i].block))
            && (req.qc.Some? ==> ValidCertificate(req.qc.value))
            && CertificateAgrees(s.tables, w.hashing.block(b), b.height)
            && |b.transactions| <= 0xFFFF && b.rewardsIndexable
            && forall i :: 0 <= i < |b.transactions| ==>
                 b.transactions[i].effects.Some? && |b.transactions[i].effects.value| <= 256
  {
    hide StoreSound, ValidCertificate, NoRepeats, TransactionsUnique, AllIndexable, Linked, IdsOf;
    ChainHeights(w, s);
    FinalityFound(w, s, req.block.height);
    CommittedIsChain(w, s);
    assert BlockIndexable(req.block) <==>
           |req.block.transactions| <= 0xFFFF && forall i :: 0 <= i < |req.block.transactions| ==>
             req.block.transactions[i].effects.Some? && |req.block.transactions[i].effects.value| <= 256;
  }

  lemma FinalityFound(w: World, s: State, height: nat)
    requires Sound(w, s)
    ensures height == s.head.height + 1 ==> FinalizedHashAt(s, NextFinalizedHeight(s, height)).Some?
  {
    hide StoreSound, ChainSound, MemorySound;
    ChainHeights(w, s);
  }

  lemma CommittedIsChain(w: World, s: State)
    requires Sound(w, s)
    ensures forall id :: id in s.committed <==> exists i :: 0 <= i < |Chain(s)| && id in IdsOf(Chain(s)[i].block)
  {
    hide StoreSound, AllIndexable, FinalitySound;
    TxsOfChain(w.genesis, Chain(s));
  }

  // ----- The certificate a new head starts with -----

  /** The hash of the certificate stored for a block, or another one. */
  function StoredOr(w: World, t: Tables, h: Hash, other: Hash): Hash {
    if h != ZERO_HASH && h in t.qcByBlock then w.hashing.canonicalQC(t.qcByBlock[h]) else other
  }

  /** A committed block brings the certificate stored for it, else the one it came with, else the head keeps its own; one
      it came with is stored for the block it names and under its own hash. */
  lemma CommitCertificate(w: World, s: State, req: Request)
    requires CommitAllowed(w, s, req)
    ensures var u := Next(w, s, Commit(req));
            && u.head.qcHash ==
               StoredOr(w, s.tables, w.hashing.block(req.block),
                        if req.qc.Some? then w.hashing.canonicalQC(req.qc.value) else s.head.qcHash)
            && (req.qc.Some? ==>
                  && req.qc.value.hash in u.tables.qcByBlock && u.tables.qcByBlock[req.qc.value.hash] == req.qc.value
                  && w.hashing.fullQC(req.qc.value) in u.tables.qcByHash
                  && u.tables.qcByHash[w.hashing.fullQC(req.qc.value)] == req.qc.value)
            && (req.qc.None? ==> u.tables.qcByBlock == s.tables.qcByBlock && u.tables.qcByHash == s.tables.qcByHash)
  {
    hide ValidCertificate, NoRepeats, BlockIndexable, AddIds, FinalizedHashAt, NextFinalizedHeight, Extend;
  }

  /** A tip that is moved to brings the certificate stored for it, or the head keeps its own; no certificate row moves. */
  lemma MoveCertificate(w: World, s: State, tip: Hash)
    requires ValidWorld(w) && Sound(w, s) && Reorganizable(w, s, tip)
    ensures var u := Next(w, s, MoveTo(tip));
            && u.head.qcHash == StoredOr(w, s.tables, tip, s.head.qcHash)
            && u.tables.qcByBlock == s.tables.qcByBlock && u.tables.qcByHash == s.tables.qcByHash
  {
    hide Sound, ValidWorld, TransactionsUnique, AllIndexable, IndexOf, Branch, Falling, NextFinalizedHeight;
    var branch := MoveIsReorg(w, s, tip);
  }

  // ----- Which certificate stays -----

  /** What decides between two certificates of a block: confirmed stake, then voters, then time. */
  predicate NoWorse(a: Certificate, b: Certificate) {
    || a.confirmed > b.confirmed
    || (a.confirmed == b.confirmed && |a.voters| > |b.voters|)
    || (a.confirmed == b.confirmed && |a.voters| == |b.voters| && a.createdAt >= b.createdAt)
  }

  /** Of the certificate a block has and the one that is saved, the block keeps one, and neither is better than it. */
  lemma BlockKeepsBetter(w: World, s: State, qc: Certificate)
    requires SaveAllowed(qc) && qc.hash in s.tables.qcByBlock
    ensures var row, had := Next(w, s, SaveQC(qc)).tables.qcByBlock, s.tables.qcByBlock[qc.hash];
            && qc.hash in row && (row[qc.hash] == qc || row[qc.hash] == had)
            && NoWorse(row[qc.hash], qc) && NoWorse(row[qc.hash], had)
  {
    hide ShouldPromote, BestQC, ValidCertificate;
    WithQCRows(w, s.tables, qc);
    assert Next(w, s, SaveQC(qc)).tables.qcByBlock == WithQC(w, s.tables, qc).qcByBlock;
    ValidHash(qc);
  }

  /** Other blocks keep theirs. */
  lemma OthersKeepTheirs(w: World, s: State, qc: Certificate, h: Hash)
    requires SaveAllowed(qc) && h != qc.hash
    ensures var row := Next(w, s, SaveQC(qc)).tables.qcByBlock;
            (h in row <==> h in s.tables.qcByBlock) && (h in row ==> row[h] == s.tables.qcByBlock[h])
  {
    hide ShouldPromote, BestQC, ValidCertificate, BetterRewardQC;
    WithQCRows(w, s.tables, qc);
    assert Next(w, s, SaveQC(qc)).tables.qcByBlock == WithQC(w, s.tables, qc).qcByBlock;
  }

  /** The certificate the head carries, if it can be found and certifies a main-chain block. */
  function Carried(s: State): Option<Certificate> {
    if s.head.qcHash == ZERO_HASH || s.head.qcHash !in s.tables.qcByHash then None
    else
      var c := s.tables.qcByHash[s.head.qcHash];
      if 0 < c.height <= s.head.height && c.height in s.tables.indexes.heights && s.tables.indexes.heights[c.height] == c.hash
      then Some(c) else None
  }

  /** Height first, then slot, then whether it certifies the head, then as between certificates of one block. */
  predicate NoLower(a: Certificate, b: Certificate, head: Head) {
    || a.height > b.height
    || (a.height == b.height && a.slot > b.slot)
    || (a.height == b.height && a.slot == b.slot && a.hash == head.blockHash && b.hash != head.blockHash)
    || (a.height == b.height && a.slot == b.slot && (a.hash == head.blockHash <==> b.hash == head.blockHash) && NoWorse(a, b))
  }

  predicate OnChain(s: State, c: Certificate) {
    0 < c.height <= s.head.height && c.height in s.tables.indexes.heights && s.tables.indexes.heights[c.height] == c.hash
  }

  /** The head of `u` against that of `s`, given the certificate `best` of a block in `u`. */
  predicate HeadRule(w: World, s: State, u: State, best: Certificate) {
    var promoted := s.head.(qcHash := w.hashing.canonicalQC(best));
    && (u.head == s.head || (u.head == promoted && u.head.qcHash in u.tables.qcByHash && u.tables.qcByHash[u.head.qcHash] == best))
    && (!OnChain(s, best) ==> u.head == s.head)
    && (OnChain(s, best) && Carried(s).None? ==> u.head == promoted)
    && (OnChain(s, best) && Carried(s).Some? ==>
          || (u.head == promoted && NoLower(best, Carried(s).value, s.head))
          || (u.head == s.head && NoLower(Carried(s).value, best, s.head)))
  }

  /** Saving a certificate puts the better one of its block into the head if it is on the main chain and the head
      carries none, or one that is no higher; otherwise the head stays as it was. */
  lemma HeadCarriesHighest(w: World, s: State, qc: Certificate)
    requires SaveAllowed(qc)
    ensures var u := Next(w, s, SaveQC(qc));
            qc.hash in u.tables.qcByBlock && HeadRule(w, s, u, u.tables.qcByBlock[qc.hash])
  {
    hide ValidCertificate, ShouldPromote, WithQC, Improves, BestQC, BetterHeadQC, BetterRewardQC, NoLower, Carried, OnChain;
    BestIsRow(w, s, qc);
    var best := BestQC(w, s.tables, qc);
    PromoteRule(w, s, best);
    if Carried(s).Some? {
      HeadOrder(w, best, Carried(s).value, s.head);
    }
  }

  lemma BestIsRow(w: World, s: State, qc: Certificate)
    requires SaveAllowed(qc)
    ensures var u := Next(w, s, SaveQC(qc));
            && qc.hash in u.tables.qcByBlock && u.tables.qcByBlock[qc.hash] == BestQC(w, s.tables, qc)
            && (qc.hash !in s.tables.qcByBlock ==> BestQC(w, s.tables, qc) == qc)
  {
    hide ValidCertificate, ShouldPromote, BetterRewardQC;
    ValidHash(qc);
  }

  lemma PromoteRule(w: World, s: State, best: Certificate)
    ensures ShouldPromote(w, s.tables, s.head, best) <==>
            OnChain(s, best) && (Carried(s).Some? ==> BetterHeadQC(w, best, Carried(s).value, s.head))
  {
    hide BetterHeadQC;
  }

  lemma HeadOrder(w: World, a: Certificate, b: Certificate, head: Head)
    ensures if BetterHeadQC(w, a, b, head) then NoLower(a, b, head) else NoLower(b, a, head)
  {
    RewardOrder(w, a, b);
  }

  lemma RewardOrder(w: World, a: Certificate, b: Certificate)
    ensures if BetterRewardQC(w, a, b) then NoWorse(a, b) else NoWorse(b, a)
  {
  }
}
