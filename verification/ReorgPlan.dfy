/** The two ancestor walks of a reorganisation: down from the new tip, then down from the old head
    until the walks meet. */
module ReorgPlan {

  import opened Blocks
  import opened ForkChoice
  import opened LedgerIndex
  import opened LedgerReorg
  import opened LedgerSpec
  import opened LedgerStore
  import opened Votes
  import opened Wrappers

  datatype Plan = Plan(ancestorHeight: nat, ancestorHash: Hash, oldBlocks: seq<Hash>, newBlocks: seq<Hash>)

  ghost function BranchOf(s: State, h: Hash): Option<seq<Stored>>
    requires Falling(s.tables.blocks)
  {
    Branch(s.tables.blocks, Trunk(s.tables), h)
  }

  /** The height table of a sound ledger names stored blocks of their own height above genesis. */
  lemma MainBlockAt(w: World, s: State, n: nat)
    requires Sound(w, s) && 1 <= n <= s.head.height
    ensures n in s.tables.indexes.heights
    ensures var h := s.tables.indexes.heights[n];
            && h in s.tables.blocks && h in Trunk(s.tables) && s.tables.blocks[h].height == n
            && n - 1 in s.tables.indexes.heights && s.tables.blocks[h].parent == s.tables.indexes.heights[n - 1]
  {
    hide StoreSound, MemorySound, FinalitySound, TransactionsUnique, AllIndexable, IndexOf;
    var chain := Chain(s);
    ChainHeights(w, s);
    assert s.tables.indexes.heights[n - 1 + 1] == chain[n - 1].hash;
    assert LinkedAt(w.genesis, chain, n - 1);
    PrefixTip(w, s, n - 1);
  }

  lemma TrunkIsMain(w: World, s: State, h: Hash)
    requires ValidWorld(w) && Sound(w, s) && h in Trunk(s.tables) && h in s.tables.blocks
    ensures var n := s.tables.blocks[h].height;
            1 <= n <= s.head.height && n in s.tables.indexes.heights && s.tables.indexes.heights[n] == h
  {
    hide ChainSound, MemorySound, FinalitySound;
    ChainHeights(w, s);
    var n :| n in s.tables.indexes.heights && s.tables.indexes.heights[n] == h;
    assert StoredWell(w, s.tables, h);
    assert n != 0;
    MainBlockAt(w, s, n);
  }

  lemma TrunkOffStore(w: World, s: State, h: Hash)
    requires ValidWorld(w) && Sound(w, s) && h in Trunk(s.tables) && h !in s.tables.blocks
    ensures h == w.genesis
  {
    hide StoreSound, ChainSound, MemorySound, FinalitySound;
    ChainHeights(w, s);
    var n :| n in s.tables.indexes.heights && s.tables.indexes.heights[n] == h;
    if n > 0 {
      MainBlockAt(w, s, n);
    }
  }

  // ----- The walk from the new tip -----

  /** So far the walk met no main-chain block, and the branch to the tip starts as the branch to the cursor. */
  ghost predicate OffTrunk(s: State, tip: Hash, visited: set<Hash>, cursor: Hash)
    requires Falling(s.tables.blocks)
  {
    && cursor !in Trunk(s.tables) && visited !! Trunk(s.tables)
    && (BranchOf(s, tip).Some? <==> BranchOf(s, cursor).Some?)
    && (BranchOf(s, tip).Some? ==> BranchOf(s, tip).value[0] == BranchOf(s, cursor).value[0])
  }

  /** The walk is on the main chain, at or below the block the branch leaves it at. */
  ghost predicate OnTrunk(s: State, tip: Hash, visited: set<Hash>, cursor: Hash)
    requires Falling(s.tables.blocks)
  {
    && BranchOf(s, tip).Some? && cursor in s.tables.blocks && cursor in Trunk(s.tables)
    && var j, k := s.tables.blocks[cursor].height, ForkHeight(BranchOf(s, tip).value);
       && j <= k
       && (cursor == RootOf(BranchOf(s, tip).value) || RootOf(BranchOf(s, tip).value) in visited)
       && forall h :: h in visited && h in Trunk(s.tables) && h in s.tables.blocks ==> s.tables.blocks[h].height <= k
  }

  /** What the finished walk tells about main-chain blocks: those visited are at most as high as the
      fork, and the fork block is among them unless it is genesis. */
  ghost predicate WalkDone(s: State, tip: Hash, visited: set<Hash>)
    requires Falling(s.tables.blocks)
  {
    && (forall h :: h in visited && h in Trunk(s.tables) && h in s.tables.blocks ==>
          BranchOf(s, tip).Some? && s.tables.blocks[h].height <= ForkHeight(BranchOf(s, tip).value))
    && (BranchOf(s, tip).Some? && RootOf(BranchOf(s, tip).value) in s.tables.blocks ==>
          RootOf(BranchOf(s, tip).value) in visited)
  }

  lemma StepDown(w: World, s: State, tip: Hash, visited: set<Hash>, cursor: Hash)
    requires ValidWorld(w) && Sound(w, s) && Falling(s.tables.blocks) && cursor in s.tables.blocks
    requires OffTrunk(s, tip, visited, cursor) || OnTrunk(s, tip, visited, cursor)
    requires s.tables.blocks[cursor].parent in s.tables.blocks
    ensures var parent := s.tables.blocks[cursor].parent;
            OffTrunk(s, tip, visited + {cursor}, parent) || OnTrunk(s, tip, visited + {cursor}, parent)
  {
    var parent := s.tables.blocks[cursor].parent;
    if OnTrunk(s, tip, visited, cursor) {
      StepOn(w, s, tip, visited, cursor);
    } else if parent in Trunk(s.tables) {
      StepOnto(w, s, tip, visited, cursor);
    } else {
      StepOff(s, tip, visited, cursor);
    }
  }

  lemma StepOn(w: World, s: State, tip: Hash, visited: set<Hash>, cursor: Hash)
    requires ValidWorld(w) && Sound(w, s) && Falling(s.tables.blocks) && OnTrunk(s, tip, visited, cursor)
    requires s.tables.blocks[cursor].parent in s.tables.blocks
    ensures OnTrunk(s, tip, visited + {cursor}, s.tables.blocks[cursor].parent)
  {
    var parent := s.tables.blocks[cursor].parent;
    assert parent in Trunk(s.tables) by {
      TrunkIsMain(w, s, cursor);
      MainBlockAt(w, s, s.tables.blocks[cursor].height);
    }
    StillOn(s, tip, visited, cursor);
  }

  lemma StillOn(s: State, tip: Hash, visited: set<Hash>, cursor: Hash)
    requires Falling(s.tables.blocks) && OnTrunk(s, tip, visited, cursor)
    requires s.tables.blocks[cursor].parent in s.tables.blocks && s.tables.blocks[cursor].parent in Trunk(s.tables)
    ensures OnTrunk(s, tip, visited + {cursor}, s.tables.blocks[cursor].parent)
  {
  }

  lemma StepOnto(w: World, s: State, tip: Hash, visited: set<Hash>, cursor: Hash)
    requires Falling(s.tables.blocks) && OffTrunk(s, tip, visited, cursor) && cursor in s.tables.blocks
    requires s.tables.blocks[cursor].parent in s.tables.blocks && s.tables.blocks[cursor].parent in Trunk(s.tables)
    ensures OnTrunk(s, tip, visited + {cursor}, s.tables.blocks[cursor].parent)
  {
    assert BranchOf(s, cursor) == Some([Stored(cursor, s.tables.blocks[cursor])]);
  }

  lemma StepOff(s: State, tip: Hash, visited: set<Hash>, cursor: Hash)
    requires Falling(s.tables.blocks) && OffTrunk(s, tip, visited, cursor) && cursor in s.tables.blocks
    requires s.tables.blocks[cursor].parent in s.tables.blocks && s.tables.blocks[cursor].parent !in Trunk(s.tables)
    ensures OffTrunk(s, tip, visited + {cursor}, s.tables.blocks[cursor].parent)
  {
  }

  lemma WalkStops(w: World, s: State, tip: Hash, visited: set<Hash>, cursor: Hash)
    requires ValidWorld(w) && Sound(w, s) && Falling(s.tables.blocks) && cursor in s.tables.blocks
    requires OffTrunk(s, tip, visited, cursor) || OnTrunk(s, tip, visited, cursor)
    requires cursor in Trunk(s.tables) || s.tables.blocks[cursor].parent !in s.tables.blocks
    ensures WalkDone(s, tip, visited + {cursor})
  {
    if OffTrunk(s, tip, visited, cursor) && BranchOf(s, cursor).Some? {
      TrunkOffStore(w, s, s.tables.blocks[cursor].parent);
    }
  }

  /** A missing parent that the walk does not excuse means there is no branch. */
  lemma WalkFails(w: World, s: State, tip: Hash, visited: set<Hash>, cursor: Hash)
    requires ValidWorld(w) && Sound(w, s) && Falling(s.tables.blocks) && cursor in s.tables.blocks
    requires OffTrunk(s, tip, visited, cursor) || OnTrunk(s, tip, visited, cursor)
    requires s.tables.blocks[cursor].parent !in s.tables.blocks && s.tables.blocks[cursor].height != 1
    ensures BranchOf(s, tip).None?
  {
    var parent := s.tables.blocks[cursor].parent;
    assert parent != w.genesis;
    if OnTrunk(s, tip, visited, cursor) {
      TrunkIsMain(w, s, cursor);
      MainBlockAt(w, s, s.tables.blocks[cursor].height);
      MainBlockAt(w, s, s.tables.blocks[cursor].height - 1);
    } else if parent in Trunk(s.tables) {
      TrunkOffStore(w, s, parent);
    }
  }

  /** One step of the walk: it is over, it failed, or it goes on at the parent. */
  lemma WalkStep(w: World, s: State, tip: Hash, visited: set<Hash>, cursor: Hash)
    requires ValidWorld(w) && Sound(w, s) && Falling(s.tables.blocks) && cursor in s.tables.blocks
    requires OffTrunk(s, tip, visited, cursor) || OnTrunk(s, tip, visited, cursor)
    ensures var b := s.tables.blocks[cursor];
            && (cursor in {s.head.blockHash, s.head.finalizedHash} || b.height == 0 || b.parent !in s.tables.blocks ==>
                  WalkDone(s, tip, visited + {cursor}))
            && (b.parent !in s.tables.blocks && b.height != 1 ==> BranchOf(s, tip).None?)
            && (b.parent in s.tables.blocks ==>
                  OffTrunk(s, tip, visited + {cursor}, b.parent) || OnTrunk(s, tip, visited + {cursor}, b.parent))
  {
    var b := s.tables.blocks[cursor];
    if cursor == s.head.blockHash || cursor == s.head.finalizedHash || b.height == 0 || b.parent !in s.tables.blocks {
      if b.parent in s.tables.blocks {
        KnownStops(w, s, cursor);
      }
      WalkStops(w, s, tip, visited, cursor);
    }
    if b.parent in s.tables.blocks {
      StepDown(w, s, tip, visited, cursor);
    } else if b.height != 1 {
      WalkFails(w, s, tip, visited, cursor);
    }
  }

  method CollectAncestors(ghost w: World, s: State, tip: Hash) returns (r: Option<map<Hash, Block>>)
    requires ValidWorld(w) && Sound(w, s) && Falling(s.tables.blocks)
    requires tip in s.tables.blocks && tip !in Trunk(s.tables)
    ensures r.None? ==> BranchOf(s, tip).None?
    ensures r.Some? ==> WalkDone(s, tip, r.value.Keys)
    ensures r.Some? ==> forall h :: h in r.value ==> h in s.tables.blocks && r.value[h] == s.tables.blocks[h]
  {
    hide *;
    var visited: map<Hash, Block> := map[];
    var cursor := tip;
    StartOff(s, tip);
    assert visited.Keys == {};
    while true
      invariant cursor in s.tables.blocks
      invariant forall h :: h in visited ==> h in s.tables.blocks && visited[h] == s.tables.blocks[h]
      invariant OffTrunk(s, tip, visited.Keys, cursor) || OnTrunk(s, tip, visited.Keys, cursor)
      decreases s.tables.blocks[cursor].height
    {
      var block := s.tables.blocks[cursor];
      WalkStep(w, s, tip, visited.Keys, cursor);
      assert visited[cursor := block].Keys == visited.Keys + {cursor};
      visited := visited[cursor := block];
      if cursor == s.head.blockHash || cursor == s.head.finalizedHash || block.height == 0 {
        return Some(visited);
      }
      if block.parent !in s.tables.blocks {
        if block.parent == s.head.finalizedHash || block.height == 1 {
          return Some(visited);
        }
        return None;
      }
      ParentIsLower(s.tables.blocks, cursor);
      cursor := block.parent;
    }
  }

  lemma StartOff(s: State, tip: Hash)
    requires Falling(s.tables.blocks) && tip !in Trunk(s.tables)
    ensures OffTrunk(s, tip, {}, tip)
  {
  }

  lemma ParentIsLower(blocks: map<Hash, Block>, h: Hash)
    requires Falling(blocks) && h in blocks && blocks[h].parent in blocks
    ensures blocks[blocks[h].parent].height < blocks[h].height
  {
  }

  lemma KnownStops(w: World, s: State, cursor: Hash)
    requires Sound(w, s) && Falling(s.tables.blocks) && cursor in s.tables.blocks
    requires cursor == s.head.blockHash || cursor == s.head.finalizedHash || s.tables.blocks[cursor].height == 0
    ensures cursor in Trunk(s.tables) || s.tables.blocks[cursor].parent !in s.tables.blocks
  {
    HeightsOfChain(w.genesis, Chain(s));
  }

  // ----- The walk from the old head -----

  /** The main-chain hashes above height `n`, from the head down. */
  ghost predicate OldAbove(s: State, n: nat, olds: seq<Hash>) {
    && n + |olds| == s.head.height
    && forall j :: 0 <= j < |olds| ==>
         s.head.height - j in s.tables.indexes.heights && olds[j] == s.tables.indexes.heights[s.head.height - j]
  }

  /** The plan the walks must find: the fork block, what leaves the main chain and what joins it. */
  ghost predicate IsPlan(s: State, plan: Plan, branch: seq<Stored>) {
    && |branch| > 0
    && plan.ancestorHeight == ForkHeight(branch) && plan.ancestorHash == RootOf(branch)
    && OldAbove(s, plan.ancestorHeight, plan.oldBlocks)
    && plan.newBlocks == Hashes(branch)
  }

  /** There is a plan exactly when a branch leads from the main chain to the tip, and, once a block is
      finalized, from above genesis. */
  ghost predicate PlanExists(s: State, tip: Hash)
    requires Falling(s.tables.blocks)
  {
    BranchOf(s, tip).Some? && (s.head.finalizedHeight > 0 ==> ForkHeight(BranchOf(s, tip).value) > 0)
  }

  /** The old walk at height `n`: no main-chain block above it was visited. */
  ghost predicate NoneAbove(s: State, visited: set<Hash>, n: nat) {
    forall m :: n < m <= s.head.height && m in s.tables.indexes.heights ==> s.tables.indexes.heights[m] !in visited
  }

  /** Where the old walk meets the new one, the branch leaves the main chain. */
  lemma WalksMeet(w: World, s: State, tip: Hash, visited: set<Hash>, n: nat)
    requires ValidWorld(w) && Sound(w, s) && Falling(s.tables.blocks) && WalkDone(s, tip, visited)
    requires 1 <= n <= s.head.height && NoneAbove(s, visited, n)
    requires n in s.tables.indexes.heights && s.tables.indexes.heights[n] in visited
    ensures BranchOf(s, tip).Some? && ForkHeight(BranchOf(s, tip).value) == n
    ensures RootOf(BranchOf(s, tip).value) == s.tables.indexes.heights[n]
  {
    MainBlockAt(w, s, n);
    var branch := BranchOf(s, tip).value;
    BranchRoot(w, s, tip, branch);
    MainBlockAt(w, s, ForkHeight(branch));
  }

  /** If they meet nowhere above genesis, the branch starts at genesis or does not exist. */
  lemma WalksMiss(w: World, s: State, tip: Hash, visited: set<Hash>)
    requires ValidWorld(w) && Sound(w, s) && Falling(s.tables.blocks) && WalkDone(s, tip, visited)
    requires NoneAbove(s, visited, 0)
    ensures BranchOf(s, tip).Some? ==> ForkHeight(BranchOf(s, tip).value) == 0 && RootOf(BranchOf(s, tip).value) == w.genesis
  {
    HeightsOfChain(w.genesis, Chain(s));
    if BranchOf(s, tip).Some? {
      var k := ForkHeight(BranchOf(s, tip).value);
      BranchRoot(w, s, tip, BranchOf(s, tip).value);
      if k > 0 {
        MainBlockAt(w, s, k);
      }
    }
  }

  /** The old walk at genesis. */
  lemma OldStepGenesis(w: World, s: State, tip: Hash, visited: set<Hash>)
    requires ValidWorld(w) && Sound(w, s) && Falling(s.tables.blocks) && WalkDone(s, tip, visited)
    requires NoneAbove(s, visited, 0) && 0 in s.tables.indexes.heights
    ensures var root := s.tables.indexes.heights[0];
            && root == w.genesis && root !in s.tables.blocks
            && (s.head.finalizedHeight == 0 ==> root == s.head.finalizedHash)
            && (BranchOf(s, tip).Some? ==> ForkHeight(BranchOf(s, tip).value) == 0 && RootOf(BranchOf(s, tip).value) == root)
  {
    HeightsOfChain(w.genesis, Chain(s));
    NoGenesisBlock(w, s.tables);
    WalksMiss(w, s, tip, visited);
  }

  lemma NoGenesisBlock(w: World, t: Tables)
    requires ValidWorld(w) && StoreSound(w, t)
    ensures w.genesis !in t.blocks
  {
    assert forall h :: h in t.blocks ==> w.hashing.block(t.blocks[h]) == h;
  }

  /** The old walk above genesis: it meets the new walk at the fork, or goes on one lower. */
  lemma OldStepAbove(w: World, s: State, tip: Hash, visited: set<Hash>, n: nat)
    requires ValidWorld(w) && Sound(w, s) && Falling(s.tables.blocks) && WalkDone(s, tip, visited)
    requires 0 < n <= s.head.height && NoneAbove(s, visited, n) && n in s.tables.indexes.heights
    ensures var cursor := s.tables.indexes.heights[n];
            && cursor in s.tables.blocks && s.tables.blocks[cursor].height == n
            && (s.head.finalizedHeight == 0 ==> cursor != s.head.finalizedHash)
            && n - 1 in s.tables.indexes.heights && s.tables.blocks[cursor].parent == s.tables.indexes.heights[n - 1]
            && (cursor !in visited ==> NoneAbove(s, visited, n - 1))
            && (cursor in visited ==>
                  && BranchOf(s, tip).Some? && ForkHeight(BranchOf(s, tip).value) == n
                  && RootOf(BranchOf(s, tip).value) == cursor)
  {
    var cursor := s.tables.indexes.heights[n];
    MainBlockAt(w, s, n);
    NoGenesisBlock(w, s.tables);
    assert s.tables.indexes.heights[0] == w.genesis by {
      HeightsOfChain(w.genesis, Chain(s));
    }
    if cursor in visited {
      WalksMeet(w, s, tip, visited, n);
    }
  }

  /** A branch found with the fork block as its only trunk is the branch from the main chain. */
  lemma SameBranch(s: State, tip: Hash, root: Hash)
    requires Falling(s.tables.blocks) && root in Trunk(s.tables)
    requires BranchOf(s, tip).Some? ==> RootOf(BranchOf(s, tip).value) == root
    ensures Branch(s.tables.blocks, {root}, tip) == BranchOf(s, tip)
  {
    if BranchOf(s, tip).Some? {
      BranchFromRoot(s.tables.blocks, Trunk(s.tables), tip);
    } else if Branch(s.tables.blocks, {root}, tip).Some? {
      BranchNeedsTrunk(s.tables.blocks, Trunk(s.tables), root, tip);
    }
  }

  method CollectReorgPlan(ghost w: World, s: State, tip: Hash) returns (r: Option<Plan>)
    requires ValidWorld(w) && Sound(w, s) && Falling(s.tables.blocks)
    requires tip in s.tables.blocks && tip !in Trunk(s.tables)
    ensures r.Some? <==> PlanExists(s, tip)
    ensures r.Some? ==> IsPlan(s, r.value, BranchOf(s, tip).value)
  {
    hide *;
    var visited := CollectAncestors(w, s, tip);
    if visited.None? {
      NoBranchNoPlan(s, tip);
      return None;
    }
    var olds: seq<Hash> := [];
    var cursor := s.head.blockHash;
    ghost var n: nat := s.head.height;
    OldStart(w, s, visited.value.Keys);
    while true
      invariant n <= s.head.height && OldAbove(s, n, olds) && NoneAbove(s, visited.value.Keys, n)
      invariant n in s.tables.indexes.heights && s.tables.indexes.heights[n] == cursor
      decreases n
    {
      if n == 0 {
        OldStepGenesis(w, s, tip, visited.value.Keys);
      } else {
        OldStepAbove(w, s, tip, visited.value.Keys, n);
      }
      if (cursor == s.head.finalizedHash && s.head.finalizedHeight == 0) || cursor in visited.value {
        var height := if cursor in visited.value then visited.value[cursor].height else 0;
        OnTheTrunk(s, n, tip);
        SameBranch(s, tip, cursor);
        var newBlocks := CollectNewBlocks(s.tables, tip, cursor);
        PlanFound(s, tip, cursor, n, olds);
        return if newBlocks.None? then None else Some(Plan(height, cursor, olds, newBlocks.value));
      }
      if cursor !in s.tables.blocks {
        PlanMissed(s, tip);
        return None;
      }
      OldMore(s, n, olds, cursor);
      olds := olds + [cursor];
      cursor := s.tables.blocks[cursor].parent;
      n := n - 1;
    }
  }

  lemma NoBranchNoPlan(s: State, tip: Hash)
    requires Falling(s.tables.blocks) && BranchOf(s, tip).None?
    ensures !PlanExists(s, tip)
  {
  }

  lemma OldStart(w: World, s: State, visited: set<Hash>)
    requires Sound(w, s)
    ensures s.head.height in s.tables.indexes.heights && s.tables.indexes.heights[s.head.height] == s.head.blockHash
    ensures OldAbove(s, s.head.height, []) && NoneAbove(s, visited, s.head.height)
  {
    HeightsOfChain(w.genesis, Chain(s));
  }

  lemma OnTheTrunk(s: State, n: nat, tip: Hash)
    requires n in s.tables.indexes.heights && tip !in Trunk(s.tables)
    ensures s.tables.indexes.heights[n] in Trunk(s.tables) && s.tables.indexes.heights[n] != tip
  {
  }

  /** The walk ended at the fork, or at genesis with nothing finalized yet. */
  lemma PlanFound(s: State, tip: Hash, cursor: Hash, n: nat, olds: seq<Hash>)
    requires Falling(s.tables.blocks) && OldAbove(s, n, olds) && (n == 0 ==> s.head.finalizedHeight == 0)
    requires BranchOf(s, tip).Some? ==> ForkHeight(BranchOf(s, tip).value) == n && RootOf(BranchOf(s, tip).value) == cursor
    ensures PlanExists(s, tip) <==> BranchOf(s, tip).Some?
    ensures BranchOf(s, tip).Some? ==>
              IsPlan(s, Plan(n, cursor, olds, Hashes(BranchOf(s, tip).value)), BranchOf(s, tip).value)
  {
  }

  lemma PlanMissed(s: State, tip: Hash)
    requires Falling(s.tables.blocks) && s.head.finalizedHeight > 0
    requires BranchOf(s, tip).Some? ==> ForkHeight(BranchOf(s, tip).value) == 0
    ensures !PlanExists(s, tip)
  {
  }

  lemma OldMore(s: State, n: nat, olds: seq<Hash>, cursor: Hash)
    requires OldAbove(s, n, olds) && 0 < n && n in s.tables.indexes.heights && s.tables.indexes.heights[n] == cursor
    ensures OldAbove(s, n - 1, olds + [cursor])
  {
    var more := olds + [cursor];
    forall j | 0 <= j < |more|
      ensures s.head.height - j in s.tables.indexes.heights && more[j] == s.tables.indexes.heights[s.head.height - j]
    {
      if j < |olds| {
        assert more[j] == olds[j];
      } else {
        assert s.head.height - j == n;
      }
    }
  }
}
