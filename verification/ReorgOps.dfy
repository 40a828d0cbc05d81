/** The operations of a reorganisation: delete the index rows of the blocks that leave, then add those
    of the blocks that join. */
module ReorgOps {

  import opened AddressHistory
  import opened Blocks
  import opened Bytes
  import opened ForkChoice
  import opened LedgerCommit
  import opened LedgerIndex
  import opened LedgerSpec
  import opened LedgerStore
  import opened Votes
  import opened Wrappers

  // ----- Folding ids over several blocks -----

  function AddAllIds(m: map<TxId, Hash>, xs: seq<Stored>): map<TxId, Hash> {
    if xs == [] then m else AddIds(AddAllIds(m, xs[..|xs| - 1]), IdsOf(xs[|xs| - 1].block), xs[|xs| - 1].hash)
  }

  function RemoveAllIds(m: map<TxId, Hash>, xs: seq<Stored>): map<TxId, Hash> {
    if xs == [] then m else RemoveIds(RemoveAllIds(m, xs[..|xs| - 1]), IdsOf(xs[|xs| - 1].block))
  }

  lemma {:induction false} ExtendAllTxs(ix: Indexes, xs: seq<Stored>)
    ensures ExtendAll(ix, xs).txs == AddAllIds(ix.txs, xs)
  {
    if xs != [] {
      ExtendAllTxs(ix, xs[..|xs| - 1]);
    }
  }

  lemma {:induction false} RetractAllTxs(ix: Indexes, xs: seq<Stored>)
    ensures RetractAll(ix, xs).txs == RemoveAllIds(ix.txs, xs)
  {
    if xs != [] {
      RetractAllTxs(ix, xs[..|xs| - 1]);
    }
  }

  /** Adding to a map is joining what adding to the empty map gives. */
  lemma AddIdsJoin(m: map<TxId, Hash>, n: map<TxId, Hash>, ids: seq<TxId>, h: Hash)
    ensures AddIds(m + n, ids, h) == m + AddIds(n, ids, h)
  {
    AddIdsAt(m + n, ids, h);
    AddIdsAt(n, ids, h);
  }

  lemma {:induction false} AddAllIdsJoin(m: map<TxId, Hash>, xs: seq<Stored>)
    ensures AddAllIds(m, xs) == m + AddAllIds(map[], xs)
  {
    if xs == [] {
      assert m + map[] == m;
    } else {
      var n := |xs| - 1;
      AddAllIdsJoin(m, xs[..n]);
      AddIdsJoin(m, AddAllIds(map[], xs[..n]), IdsOf(xs[n].block), xs[n].hash);
    }
  }

  lemma {:induction false} RemoveIdsThen(m: map<TxId, Hash>, xs: seq<TxId>, ys: seq<TxId>)
    ensures RemoveIds(m, xs + ys) == RemoveIds(RemoveIds(m, xs), ys)
  {
    if ys == [] {
      assert xs + ys == xs;
    } else {
      assert (xs + ys)[..|xs + ys| - 1] == xs + ys[..|ys| - 1];
      RemoveIdsThen(m, xs, ys[..|ys| - 1]);
    }
  }

  // ----- Blocks that leave -----

  /** Stored blocks that were once indexed: they can be taken out of the indexes again. */
  ghost predicate WereIndexed(t: Tables, xs: seq<Stored>) {
    InBlocks(t, xs) && AllIndexable(xs) && forall i :: 0 <= i < |xs| ==> NoRepeats(IdsOf(xs[i].block))
  }

  method DeleteOld(t: Tables, olds: seq<Hash>, ghost xs: seq<Stored>, ghost committed: map<TxId, Hash>)
    returns (r: Option<seq<Operation>>, removed: seq<TxId>, oldSet: set<Hash>)
    requires WereIndexed(t, xs) && olds == Hashes(xs)
    ensures r.Some? && ApplyAll(t, r.value) == t.(indexes := RetractAll(t.indexes, xs))
    ensures RemoveIds(committed, removed) == RemoveAllIds(committed, xs)
    ensures forall h :: h in oldSet <==> h in olds
  {
    hide *;
    var ops: seq<Operation> := [];
    removed, oldSet := [], {};
    DeleteStart(t, xs, committed);
    for i := 0 to |olds|
      invariant ApplyAll(t, ops) == t.(indexes := RetractAll(t.indexes, xs[..i]))
      invariant RemoveIds(committed, removed) == RemoveAllIds(committed, xs[..i])
      invariant forall h :: h in oldSet <==> h in olds[..i]
    {
      DeleteStep(t, xs, committed, i);
      var more, ids := DeleteOne(t, ops, olds[i], xs[i]);
      ops := more;
      RemoveIdsThen(committed, removed, ids);
      removed := removed + ids;
      assert olds[..i + 1] == olds[..i] + [olds[i]];
      oldSet := oldSet + {olds[i]};
    }
    assert xs[..|olds|] == xs && olds[..|olds|] == olds;
    return Some(ops), removed, oldSet;
  }

  lemma DeleteStart(t: Tables, xs: seq<Stored>, committed: map<TxId, Hash>)
    ensures ApplyAll(t, []) == t.(indexes := RetractAll(t.indexes, xs[..0]))
    ensures RemoveIds(committed, []) == RemoveAllIds(committed, xs[..0])
  {
  }

  lemma DeleteStep(t: Tables, xs: seq<Stored>, committed: map<TxId, Hash>, i: nat)
    requires WereIndexed(t, xs) && i < |xs|
    ensures xs[i].hash in t.blocks && t.blocks[xs[i].hash] == xs[i].block
    ensures BlockIndexable(xs[i].block) && NoRepeats(IdsOf(xs[i].block)) && xs[i].block.rewardsIndexable
    ensures RetractAll(t.indexes, xs[..i + 1]) == Retract(RetractAll(t.indexes, xs[..i]), xs[i])
    ensures RemoveAllIds(committed, xs[..i + 1]) == RemoveIds(RemoveAllIds(committed, xs[..i]), IdsOf(xs[i].block))
  {
    hide Retract, RemoveIds, BlockIndexable, NoRepeats;
    assert xs[..i + 1][..i] == xs[..i];
  }

  method DeleteOne(t: Tables, ops: seq<Operation>, h: Hash, ghost x: Stored) returns (r: seq<Operation>, ids: seq<TxId>)
    requires x.hash == h && h in t.blocks && t.blocks[h] == x.block
    requires BlockIndexable(x.block) && NoRepeats(IdsOf(x.block)) && x.block.rewardsIndexable
    ensures ApplyAll(t, r) == var s := ApplyAll(t, ops); s.(indexes := Retract(s.indexes, x))
    ensures ids == IdsOf(x.block)
  {
    var block := t.blocks[h];
    var found := TransactionIds(block);
    ids := found.value;
    r := AppendTxDeletes(t, ops, ids);
    var entries := AppendHistoryDeletes(t, r, block, h);
    ApplyOne(t, entries.value, DeleteHeight(block.height));
    r := entries.value + [DeleteHeight(block.height)];
  }

  // ----- Blocks that join -----

  /** Ids that neither an earlier new block nor a main-chain block that stays holds. */
  ghost predicate FreshIds(ids: seq<TxId>, seen: set<TxId>, txs: map<TxId, Hash>, oldSet: set<Hash>) {
    forall id :: id in ids ==> id !in seen && (id in txs ==> txs[id] in oldSet)
  }

  method CheckFresh(ids: seq<TxId>, seen: set<TxId>, txs: map<TxId, Hash>, oldSet: set<Hash>) returns (ok: bool)
    ensures ok == FreshIds(ids, seen, txs, oldSet)
  {
    for i := 0 to |ids|
      invariant forall k :: 0 <= k < i ==> ids[k] !in seen && (ids[k] in txs ==> txs[ids[k]] in oldSet)
    {
      var id := ids[i];
      if id in seen {
        return false;
      }
      if id in txs && txs[id] !in oldSet {
        return false;
      }
    }
    return true;
  }

  function IdSet(xs: seq<Stored>): set<TxId> {
    if xs == [] then {} else IdSet(xs[..|xs| - 1]) + Elements(IdsOf(xs[|xs| - 1].block))
  }

  lemma {:induction false} IdSetHolds(xs: seq<Stored>, id: TxId)
    ensures id in IdSet(xs) <==> exists i :: 0 <= i < |xs| && id in IdsOf(xs[i].block)
  {
    if xs != [] {
      var n := |xs| - 1;
      IdSetHolds(xs[..n], id);
      assert forall i :: 0 <= i < n ==> xs[..n][i] == xs[i];
      if id in IdsOf(xs[n].block) {
        assert id in IdSet(xs);
      }
      if exists i :: 0 <= i < |xs| && id in IdsOf(xs[i].block) {
        var i :| 0 <= i < |xs| && id in IdsOf(xs[i].block);
        assert i < n ==> id in IdsOf(xs[..n][i].block);
      }
    }
  }

  /** One new block passes the duplicate check exactly when the chain with it still repeats nothing. */
  lemma FreshIsUnique(genesis: Hash, chain: seq<Stored>, k: nat, oldSet: set<Hash>, done: seq<Stored>, x: Stored)
    requires Linked(genesis, chain) && TransactionsUnique(chain) && k <= |chain|
    requires forall i :: 0 <= i < |chain| ==> (chain[i].hash in oldSet <==> k <= i)
    requires TransactionsUnique(chain[..k] + done) && NoRepeats(IdsOf(x.block))
    ensures FreshIds(IdsOf(x.block), IdSet(done), IndexOf(genesis, chain).txs, oldSet) <==>
            TransactionsUnique(chain[..k] + done + [x])
  {
    TxsOfChain(genesis, chain);
    var c := chain[..k] + done;
    var txs := IndexOf(genesis, chain).txs;
    forall id ensures (id !in IdSet(done) && (id in txs ==> txs[id] in oldSet)) <==>
                      (forall i :: 0 <= i < |c| ==> id !in IdsOf(c[i].block)) {
      FreshId(genesis, chain, k, oldSet, done, id);
    }
    UniqueIff(c, x);
  }

  lemma UniqueIff(c: seq<Stored>, x: Stored)
    requires TransactionsUnique(c) && NoRepeats(IdsOf(x.block))
    ensures TransactionsUnique(c + [x]) <==>
            forall id :: id in IdsOf(x.block) ==> forall i :: 0 <= i < |c| ==> id !in IdsOf(c[i].block)
  {
    var longer := c + [x];
    assert forall i :: 0 <= i < |c| ==> longer[i] == c[i];
    assert longer[|c|] == x;
  }

  lemma FreshId(genesis: Hash, chain: seq<Stored>, k: nat, oldSet: set<Hash>, done: seq<Stored>, id: TxId)
    requires TransactionsUnique(chain) && k <= |chain|
    requires forall i :: 0 <= i < |chain| ==> (chain[i].hash in oldSet <==> k <= i)
    ensures var c, txs := chain[..k] + done, IndexOf(genesis, chain).txs;
            (id !in IdSet(done) && (id in txs ==> txs[id] in oldSet)) <==>
            (forall i :: 0 <= i < |c| ==> id !in IdsOf(c[i].block))
  {
    hide IndexOf, IdSet, NoRepeats;
    var c, txs := chain[..k] + done, IndexOf(genesis, chain).txs;
    TxsOfChain(genesis, chain);
    IdSetHolds(done, id);
    assert forall i :: 0 <= i < k ==> c[i] == chain[i];
    assert forall i :: 0 <= i < |done| ==> c[k + i] == done[i];
  }

  /** Append the index rows of one new block, unless it repeats a transaction or cannot be indexed. */
  method AddOne(t: Tables, ops: seq<Operation>, h: Hash, ghost x: Stored, seen: set<TxId>, oldSet: set<Hash>)
    returns (r: Option<seq<Operation>>, ids: seq<TxId>)
    requires x.hash == h && h in t.blocks && t.blocks[h] == x.block && NoRepeats(IdsOf(x.block))
    ensures ids == IdsOf(x.block)
    ensures r.Some? <==>
            FreshIds(IdsOf(x.block), seen, t.indexes.txs, oldSet) && BlockIndexable(x.block) && x.block.rewardsIndexable
    ensures r.Some? ==> ApplyAll(t, r.value) == var s := ApplyAll(t, ops); s.(indexes := Extend(s.indexes, x))
  {
    var block := t.blocks[h];
    var found := TransactionIds(block);
    ids := found.value;
    var ok := CheckFresh(ids, seen, t.indexes.txs, oldSet);
    if !ok {
      return None, ids;
    }
    var indexed := AppendTxPuts(t, ops, ids, h);
    var entries := AppendHistoryPuts(t, indexed, block, h);
    if entries.None? || !block.rewardsIndexable {
      return None, ids;
    }
    ApplyOne(t, entries.value, PutHeight(block.height, h));
    return Some(entries.value + [PutHeight(block.height, h)]), ids;
  }

  /** The situation in which new blocks are added: the old ones above the fork are out of the indexes. */
  ghost predicate Adding(w: World, t: Tables, chain: seq<Stored>, k: nat, oldSet: set<Hash>, branch: seq<Stored>) {
    && Linked(w.genesis, chain) && TransactionsUnique(chain) && k <= |chain|
    && t.indexes == IndexOf(w.genesis, chain)
    && (forall i :: 0 <= i < |chain| ==> (chain[i].hash in oldSet <==> k <= i))
    && InBlocks(t, branch) && (forall i :: 0 <= i < |branch| ==> NoRepeats(IdsOf(branch[i].block)))
  }

  method AddNew(ghost w: World, t: Tables, ops: seq<Operation>, news: seq<Hash>, oldSet: set<Hash>,
                ghost chain: seq<Stored>, ghost k: nat, ghost branch: seq<Stored>)
    returns (r: Option<seq<Operation>>, added: map<TxId, Hash>)
    requires Adding(w, t, chain, k, oldSet, branch) && news == Hashes(branch)
    requires ApplyAll(t, ops) == t.(indexes := IndexOf(w.genesis, chain[..k]))
    ensures r.Some? <==> TransactionsUnique(chain[..k] + branch) && AllIndexable(branch)
    ensures r.Some? ==> ApplyAll(t, r.value) == t.(indexes := IndexOf(w.genesis, chain[..k] + branch))
    ensures r.Some? ==> added == AddAllIds(map[], branch)
  {
    hide *;
    var out := ops;
    var seen: set<TxId> := {};
    added := map[];
    AddStart(w, t, chain, k, oldSet, branch);
    for i := 0 to |news|
      invariant TransactionsUnique(chain[..k] + branch[..i]) && AllIndexable(branch[..i])
      invariant ApplyAll(t, out) == t.(indexes := IndexOf(w.genesis, chain[..k] + branch[..i]))
      invariant seen == IdSet(branch[..i]) && added == AddAllIds(map[], branch[..i])
    {
      AddStep(w, t, chain, k, oldSet, branch, i);
      var more, ids := AddOne(t, out, news[i], branch[i], seen, oldSet);
      if more.None? {
        return None, added;
      }
      out := more.value;
      seen := seen + Elements(ids);
      added := AddIds(added, ids, news[i]);
    }
    assert branch[..|news|] == branch;
    return Some(out), added;
  }

  lemma AddStart(w: World, t: Tables, chain: seq<Stored>, k: nat, oldSet: set<Hash>, branch: seq<Stored>)
    requires Adding(w, t, chain, k, oldSet, branch)
    ensures k <= |chain| && chain[..k] + branch[..0] == chain[..k]
    ensures TransactionsUnique(chain[..k] + branch[..0]) && AllIndexable(branch[..0])
    ensures IdSet(branch[..0]) == {} && AddAllIds(map[], branch[..0]) == map[]
  {
    hide IndexOf, Linked;
    UniquePrefix(chain, k);
    assert chain[..k] + branch[..0] == chain[..k];
  }

  /** What one more block means for the chain being built. */
  lemma AddStep(w: World, t: Tables, chain: seq<Stored>, k: nat, oldSet: set<Hash>, branch: seq<Stored>, i: nat)
    requires Adding(w, t, chain, k, oldSet, branch) && i < |branch|
    requires TransactionsUnique(chain[..k] + branch[..i]) && AllIndexable(branch[..i])
    ensures branch[i].hash in t.blocks && t.blocks[branch[i].hash] == branch[i].block && NoRepeats(IdsOf(branch[i].block))
    ensures FreshIds(IdsOf(branch[i].block), IdSet(branch[..i]), t.indexes.txs, oldSet) <==>
            TransactionsUnique(chain[..k] + branch[..i + 1])
    ensures AllIndexable(branch[..i + 1]) <==> BlockIndexable(branch[i].block) && branch[i].block.rewardsIndexable
    ensures TransactionsUnique(chain[..k] + branch) ==> TransactionsUnique(chain[..k] + branch[..i + 1])
    ensures AllIndexable(branch) ==> AllIndexable(branch[..i + 1])
    ensures IndexOf(w.genesis, chain[..k] + branch[..i + 1]) == Extend(IndexOf(w.genesis, chain[..k] + branch[..i]), branch[i])
    ensures IdSet(branch[..i + 1]) == IdSet(branch[..i]) + Elements(IdsOf(branch[i].block))
    ensures AddAllIds(map[], branch[..i + 1]) == AddIds(AddAllIds(map[], branch[..i]), IdsOf(branch[i].block), branch[i].hash)
  {
    hide IndexOf, Linked, TransactionsUnique, FreshIds, IdSet, AddAllIds, AddIds, Extend, NoRepeats, BlockIndexable;
    var c := chain[..k] + branch[..i];
    assert chain[..k] + branch[..i + 1] == c + [branch[i]];
    FreshIsUnique(w.genesis, chain, k, oldSet, branch[..i], branch[i]);
    IndexSnoc(w.genesis, c, branch[i]);
    FoldsGrow(branch, i);
    if TransactionsUnique(chain[..k] + branch) {
      assert (chain[..k] + branch)[..k + i + 1] == chain[..k] + branch[..i + 1];
      UniquePrefix(chain[..k] + branch, k + i + 1);
    }
    assert branch[..i + 1] == branch[..i] + [branch[i]];
  }

  lemma FoldsGrow(xs: seq<Stored>, i: nat)
    requires i < |xs|
    ensures IdSet(xs[..i + 1]) == IdSet(xs[..i]) + Elements(IdsOf(xs[i].block))
    ensures AddAllIds(map[], xs[..i + 1]) == AddIds(AddAllIds(map[], xs[..i]), IdsOf(xs[i].block), xs[i].hash)
  {
    hide AddIds;
    assert xs[..i + 1][..i] == xs[..i];
  }
}
