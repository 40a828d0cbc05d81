/** Restarting from the tables: what is loaded, rebuilt and recovered. */
module LedgerReload {

  import opened AddressHistory
  import opened Blocks
  import opened ChainState
  import opened LedgerCommit
  import opened LedgerIndex
  import opened LedgerSpec
  import opened LedgerStore
  import opened Votes
  import opened Wrappers

  /** The account table if it has the head's root; otherwise, with recovery, the head's snapshot. */
  function LoadedAccounts(w: World, t: Tables, recovery: bool): Option<Accounts> {
    if w.hashing.root(t.accounts) == t.head.stateRoot then Some(t.accounts)
    else if !recovery then None
    else
      var rows := Snapshot(t, t.head.blockHash);
      if rows == map[] || w.hashing.root(rows) != t.head.stateRoot then None else Some(rows)
  }

  /** Stale rows: the account table holds more than the live accounts. */
  predicate Stale(s: State) {
    s.tables.accounts != s.accounts
  }

  /** A rebuild can read the tables: every listed block is stored and well formed. */
  ghost predicate Readable(t: Tables, n: nat) {
    forall m :: 1 <= m <= n && m in t.indexes.heights ==>
      && t.indexes.heights[m] in t.blocks
      && NoRepeats(IdsOf(t.blocks[t.indexes.heights[m]]))
      && BlockIndexable(t.blocks[t.indexes.heights[m]])
  }

  // ----- Rebuilding -----

  method RebuildTransactionIndex(ghost genesis: Hash, t: Tables, height: nat) returns (index: map<TxId, Hash>)
    requires Readable(t, height)
    ensures index == IndexOf(genesis, MainBlocks(t, height)).txs
  {
    hide NoRepeats, BlockIndexable, IndexOf, MainBlocks;
    index := map[];
    NothingRebuilt(genesis, t);
    for n := 1 to height + 1
      invariant index == IndexOf(genesis, MainBlocks(t, n - 1)).txs
    {
      RebuildStep(genesis, t, n);
      if n !in t.indexes.heights {
        continue;
      }
      var h := t.indexes.heights[n];
      var ids := TransactionIds(t.blocks[h]);
      ghost var before := index;
      for i := 0 to |ids.value|
        invariant index == AddIds(before, ids.value[..i], h)
      {
        assert ids.value[..i + 1][..i] == ids.value[..i];
        index := index[ids.value[i] := h];
      }
      assert ids.value[..|ids.value|] == ids.value;
    }
  }

  lemma NothingRebuilt(genesis: Hash, t: Tables)
    ensures IndexOf(genesis, MainBlocks(t, 0)).txs == map[] && IndexOf(genesis, MainBlocks(t, 0)).history == map[]
  {
  }

  /** What one height adds to the rebuilt indexes. */
  lemma RebuildStep(genesis: Hash, t: Tables, n: nat)
    requires n > 0
    ensures n !in t.indexes.heights ==> MainBlocks(t, n) == MainBlocks(t, n - 1)
    ensures n in t.indexes.heights && t.indexes.heights[n] in t.blocks ==>
              var h := t.indexes.heights[n];
              var before, after := IndexOf(genesis, MainBlocks(t, n - 1)), IndexOf(genesis, MainBlocks(t, n));
              && after.txs == AddIds(before.txs, IdsOf(t.blocks[h]), h)
              && after.history == AddEntries(before.history, Entries(t.blocks[h], h))
  {
    hide AddIds, AddEntries, Entries, IndexOf;
    if n in t.indexes.heights && t.indexes.heights[n] in t.blocks {
      var h := t.indexes.heights[n];
      IndexSnoc(genesis, MainBlocks(t, n - 1), Stored(h, t.blocks[h]));
    }
  }

  method RebuildHistory(ghost genesis: Hash, t: Tables, height: nat) returns (ops: seq<Operation>)
    requires Readable(t, height) && t.indexes.history == map[]
    ensures ApplyAll(t, ops) == t.(indexes := t.indexes.(history := IndexOf(genesis, MainBlocks(t, height)).history))
  {
    hide NoRepeats, BlockIndexable, IndexOf, MainBlocks, AddEntries;
    ops := [];
    NothingRebuilt(genesis, t);
    for n := 1 to height + 1
      invariant ApplyAll(t, ops) == t.(indexes := t.indexes.(history := IndexOf(genesis, MainBlocks(t, n - 1)).history))
    {
      RebuildStep(genesis, t, n);
      if n !in t.indexes.heights {
        continue;
      }
      var h := t.indexes.heights[n];
      var more := AppendHistoryPuts(t, ops, t.blocks[h], h);
      ops := more.value;
    }
  }

  // ----- Reload refines memory -----

  lemma SoundIsReadable(w: World, s: State)
    requires Sound(w, s)
    ensures Readable(s.tables, s.head.height)
  {
    HeightsOfChain(w.genesis, Chain(s));
    forall m | 1 <= m <= s.head.height && m in s.tables.indexes.heights
      ensures s.tables.indexes.heights[m] in s.tables.blocks
      ensures NoRepeats(IdsOf(s.tables.blocks[s.tables.indexes.heights[m]]))
      ensures BlockIndexable(s.tables.blocks[s.tables.indexes.heights[m]])
    {
      assert s.tables.indexes.heights[m - 1 + 1] == Chain(s)[m - 1].hash;
    }
  }

  /** The fast indexes are what a rebuild from the height table gives: the height table, the transaction
      table, the address history and the map in memory. */
  lemma IndexesMatchRebuild(w: World, s: State)
    requires Sound(w, s)
    ensures s.tables.indexes == IndexOf(w.genesis, MainBlocks(s.tables, s.head.height))
    ensures s.committed == IndexOf(w.genesis, MainBlocks(s.tables, s.head.height)).txs
    ensures forall i, j, id :: 0 <= i < j < |MainBlocks(s.tables, s.head.height)| ==>
              !(id in IdsOf(MainBlocks(s.tables, s.head.height)[i].block) && id in IdsOf(MainBlocks(s.tables, s.head.height)[j].block))
  {
  }

  /** When a restart succeeds. */
  predicate RestartAllowed(s: State, recovery: bool) {
    !Stale(s) || (recovery && s.accounts != map[])
  }

  /** Without stale rows the account table is loaded as it is; with them, recovery finds the live
      accounts in the head's snapshot, except that an empty snapshot counts as missing. */
  lemma LoadFindsLiveAccounts(w: World, s: State, recovery: bool)
    requires ValidWorld(w) && Sound(w, s)
    ensures LoadedAccounts(w, s.tables, recovery).Some? <==> RestartAllowed(s, recovery)
    ensures LoadedAccounts(w, s.tables, recovery).Some? ==> LoadedAccounts(w, s.tables, recovery).value == s.accounts
  {
    assert w.hashing.root(s.tables.accounts) == w.hashing.root(s.accounts) <==> s.tables.accounts == s.accounts;
  }

  /** A reload gives the live ledger back, with the account table cleaned of stale rows. */
  function Reloaded(s: State, depth: nat): State {
    s.(tables := s.tables.(accounts := s.accounts),
       finalityDepth := if depth == 0 then DEFAULT_FINALITY_DEPTH else depth,
       suspended := false)
  }

  lemma ReloadSound(w: World, s: State, depth: nat)
    requires Sound(w, s)
    ensures Sound(w, Reloaded(s, depth)) && Chain(Reloaded(s, depth)) == Chain(s)
  {
    var u := Reloaded(s, depth);
    StoreFrame(w, s.tables, u.tables);
    ChainFrame(w, s.tables, u.tables, Chain(s));
    assert Snapshot(u.tables, s.head.blockHash) == Snapshot(s.tables, s.head.blockHash);
    assert SoundWith(w, u, Chain(s));
    ChainIsUnique(w, u, Chain(s));
  }

  /** Loading a ledger from its tables alone; `live` is the state the tables were left in. */
  method TryRestart(w: World, t: Tables, depth: nat, recovery: bool, ghost live: State) returns (r: Option<State>)
    requires ValidWorld(w) && Sound(w, live) && t == live.tables
    ensures r.Some? <==> RestartAllowed(live, recovery)
    ensures r.Some? ==> r.value == Reloaded(live, depth)
  {
    hide StoreSound, ChainSound, MemorySound, FinalitySound, ValidWorld, Readable, IndexOf, MainBlocks, Stale;
    HeadIsStored(w, live, Chain(live));
    LoadFindsLiveAccounts(w, live, recovery);
    SoundIsReadable(w, live);
    IndexesMatchRebuild(w, live);
    var accounts := t.accounts;
    if w.hashing.root(accounts) != t.head.stateRoot {
      if !recovery {
        return None;
      }
      accounts := Snapshot(t, t.head.blockHash);
      if accounts == map[] || w.hashing.root(accounts) != t.head.stateRoot {
        return None;
      }
    }
    var tables := t.(accounts := accounts);
    var index := t.indexes.txs;
    if index == map[] {
      index := RebuildTransactionIndex(w.genesis, t, t.head.height);
    }
    if t.head.height != 0 && t.indexes.history == map[] {
      SameMainBlocks(t, tables, t.head.height);
      var ops := RebuildHistory(w.genesis, tables, t.head.height);
      tables := ApplyAll(tables, ops);
    }
    return Some(State(tables, t.head, accounts, index, if depth == 0 then DEFAULT_FINALITY_DEPTH else depth, false));
  }

  lemma {:induction false} SameMainBlocks(t: Tables, u: Tables, n: nat)
    requires u.blocks == t.blocks && u.indexes == t.indexes
    ensures MainBlocks(u, n) == MainBlocks(t, n)
    ensures Readable(t, n) ==> Readable(u, n)
  {
    if n > 0 {
      SameMainBlocks(t, u, n - 1);
    }
  }
}
