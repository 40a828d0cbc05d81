/** The ledger object: tables and memory, changed together by each operation. */
module Ledger {

  import opened Blocks
  import opened ChainState
  import opened LedgerCommit
  import opened LedgerIndex
  import opened LedgerQC
  import opened LedgerReload
  import opened LedgerReorg
  import opened LedgerRuns
  import opened LedgerSpec
  import opened LedgerStore
  import opened ReorgPlan
  import opened Reorganize
  import opened Votes
  import opened Wrappers

  class Ledger {
    const world: World
    var tables: Tables
    var head: Head
    var accounts: Accounts
    var committed: map<TxId, Hash>
    var finalityDepth: nat
    var suspended: bool

    function Abstract(): State
      reads this
    {
      State(tables, head, accounts, committed, finalityDepth, suspended)
    }

    ghost predicate Valid()
      reads this
    {
      ValidWorld(world) && Sound(world, Abstract())
    }

    constructor (w: World, chainId: string, genesisAccounts: Accounts, depth: nat)
      requires ValidWorld(w) && w.hashing.root(genesisAccounts) == w.genesis
      ensures world == w && Valid() && Abstract() == Genesis(w, chainId, genesisAccounts, depth)
    {
      var s := Genesis(w, chainId, genesisAccounts, depth);
      GenesisSound(w, chainId, genesisAccounts, depth);
      world := w;
      tables, head, accounts := s.tables, s.head, s.accounts;
      committed, finalityDepth, suspended := s.committed, s.finalityDepth, s.suspended;
    }

    method CommitBlock(req: Request) returns (r: Option<Head>)
      requires Valid()
      modifies this
      ensures Valid() && Abstract() == Next(world, old(Abstract()), Commit(req))
      ensures r.Some? <==> CommitAllowed(world, old(Abstract()), req)
      ensures r.Some? ==> r.value == head
    {
      hide Sound, ValidWorld, CommitAllowed, Committed;
      NextSound(world, Abstract(), Commit(req));
      var next := TryCommit(world, Abstract(), req);
      if next.None? {
        return None;
      }
      CommitFrame(world, Abstract(), req);
      tables, head := next.value.tables, next.value.head;
      accounts, committed := next.value.accounts, next.value.committed;
      return Some(head);
    }

    /** Keeps a fork block for later; the caller vouches that its height fits its parent. */
    method SaveBlockCandidate(req: Request) returns (r: Option<Hash>)
      requires Valid() && WellLinked(world, req.block)
      modifies this
      ensures Valid() && Abstract() == Next(world, old(Abstract()), SaveCandidate(req))
      ensures r.Some? <==> CandidateAllowed(world, req)
      ensures r.Some? ==> r.value == world.hashing.block(req.block)
    {
      hide Sound, ValidWorld, WellLinked, NoRepeats;
      NextSound(world, Abstract(), SaveCandidate(req));
      var h := world.hashing.block(req.block);
      if world.hashing.root(req.next) != req.block.stateRoot {
        return None;
      }
      var ids := TransactionIds(req.block);
      if ids.None? {
        return None;
      }
      var ops := BlockStorageOps(tables, h, req.block, req.next);
      tables := ApplyAll(tables, ops);
      return Some(h);
    }

    /** Fork choice: move to a stored tip if that is allowed, otherwise stay. */
    method ReorganizeTo(tip: Hash) returns (d: Decision, ghost branch: seq<Stored>)
      requires Valid()
      modifies this
      ensures Valid() && Abstract() == Next(world, old(Abstract()), MoveTo(tip))
      ensures d.Accepted? <==> Reorganizable(world, old(Abstract()), tip)
      ensures d.NotBetter? <==> tip in old(tables.blocks) && !BetterTip(world, old(tables.blocks)[tip], tip, old(head))
      ensures d.Accepted? ==> ReorgAllowed(world, old(Abstract()), tip, branch) && IsPlan(old(Abstract()), d.plan, branch)
    {
      hide Sound, ValidWorld, ReorgAllowed, Reorganized, Reorganizable, MovedTo, NewChain, BetterTip;
      NextSound(world, Abstract(), MoveTo(tip));
      var next: State;
      d, next, branch := TryReorganize(world, Abstract(), tip);
      if d.Accepted? {
        MoveFrame(world, Abstract(), tip, branch);
        tables, head := next.tables, next.head;
        accounts, committed := next.accounts, next.committed;
      }
    }

    method SaveQC(qc: Certificate) returns (r: Option<Head>)
      requires Valid()
      modifies this
      ensures Valid() && Abstract() == Next(world, old(Abstract()), LedgerRuns.SaveQC(qc))
      ensures r.Some? <==> SaveAllowed(qc)
      ensures r.Some? ==> r.value == head
    {
      hide Sound, ValidWorld, ValidCertificate, BetterRewardQC, ShouldPromote;
      NextSound(world, Abstract(), LedgerRuns.SaveQC(qc));
      var valid := ValidateCertificate(qc);
      if !valid || qc.voteType != Confirm {
        return None;
      }
      var best, update := qc, true;
      if qc.hash != ZERO_HASH && qc.hash in tables.qcByBlock && !BetterRewardQC(world, qc, tables.qcByBlock[qc.hash]) {
        best, update := tables.qcByBlock[qc.hash], false;
      }
      var promote := ShouldPromote(world, tables, head, best);
      var next := tables.(qcByHash := tables.qcByHash[world.hashing.fullQC(qc) := qc]);
      if update {
        next := next.(qcByBlock := next.qcByBlock[qc.hash := qc], qcByHash := next.qcByHash[world.hashing.canonicalQC(qc) := qc]);
      }
      if promote {
        var newHead := head.(qcHash := world.hashing.canonicalQC(best));
        next := next.(qcByHash := next.qcByHash[newHead.qcHash := best], head := newHead);
        head := newHead;
      }
      tables := next;
      return Some(head);
    }

    method AdvanceFinalizedCheckpoint(height: nat, hash: Hash) returns (r: Option<Head>)
      requires Valid()
      modifies this
      ensures Valid() && Abstract() == Next(world, old(Abstract()), Advance(height, hash))
      ensures r.Some? <==> AdvanceAllowed(old(Abstract()), height, hash)
      ensures r.Some? ==> r.value == head
    {
      hide Sound, ValidWorld;
      NextSound(world, Abstract(), Advance(height, hash));
      if height > head.height || height !in tables.indexes.heights || tables.indexes.heights[height] != hash {
        return None;
      }
      head := head.(finalizedHeight := height, finalizedHash := hash);
      tables := tables.(head := head);
      return Some(head);
    }

    method SetFinalitySuspended(on: bool)
      requires Valid()
      modifies this
      ensures Valid() && Abstract() == Next(world, old(Abstract()), Suspend(on))
    {
      hide Sound, ValidWorld;
      NextSound(world, Abstract(), Suspend(on));
      suspended := on;
    }

    /** The node stops and starts again: memory is rebuilt from the tables. */
    method Reload(depth: nat, recovery: bool) returns (ok: bool)
      requires Valid()
      modifies this
      ensures Valid() && Abstract() == Next(world, old(Abstract()), Restart(depth, recovery))
      ensures ok <==> RestartAllowed(old(Abstract()), recovery)
    {
      hide Sound, ValidWorld, RestartAllowed;
      NextSound(world, Abstract(), Restart(depth, recovery));
      var s := TryRestart(world, tables, depth, recovery, Abstract());
      if s.None? {
        return false;
      }
      tables, head, accounts := s.value.tables, s.value.head, s.value.accounts;
      committed, finalityDepth, suspended := s.value.committed, s.value.finalityDepth, s.value.suspended;
      return true;
    }
  }

  lemma CommitFrame(w: World, s: State, req: Request)
    requires CommitAllowed(w, s, req)
    ensures Committed(w, s, req).finalityDepth == s.finalityDepth && Committed(w, s, req).suspended == s.suspended
  {
  }

  lemma MoveFrame(w: World, s: State, tip: Hash, branch: seq<Stored>)
    requires ValidWorld(w) && Sound(w, s) && ReorgAllowed(w, s, tip, branch)
    requires NextFinalizedHeight(s, s.tables.blocks[tip].height) in IndexOf(w.genesis, NewChain(Chain(s), branch)).heights
    ensures MovedTo(w, s, tip) == Reorganized(w, s, tip, NewChain(Chain(s), branch))
    ensures MovedTo(w, s, tip).finalityDepth == s.finalityDepth && MovedTo(w, s, tip).suspended == s.suspended
    ensures Reorganizable(w, s, tip)
  {
    hide Sound, IndexOf, TransactionsUnique;
  }
}
