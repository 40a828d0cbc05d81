/** The main-chain indexes (height to hash, transaction to block, address history) as a function of the
    chain, and how extending and retracting the chain changes them. */
module LedgerIndex {

  import opened AddressHistory
  import opened Blocks
  import opened Votes

  /** A block together with the hash it is stored under. */
  datatype Stored = Stored(hash: Hash, block: Block)

  datatype Indexes = Indexes(
    heights: map<nat, Hash>,
    txs: map<TxId, Hash>,
    history: map<HistoryKey, HistoryRecord>)

  // ----- Single tables -----

  function AddIds(m: map<TxId, Hash>, ids: seq<TxId>, h: Hash): map<TxId, Hash> {
    if ids == [] then m else AddIds(m, ids[..|ids| - 1], h)[ids[|ids| - 1] := h]
  }

  function RemoveIds(m: map<TxId, Hash>, ids: seq<TxId>): map<TxId, Hash> {
    if ids == [] then m else RemoveIds(m, ids[..|ids| - 1]) - {ids[|ids| - 1]}
  }

  function AddEntries(m: map<HistoryKey, HistoryRecord>, es: seq<HistoryEntry>): map<HistoryKey, HistoryRecord> {
    if es == [] then m else AddEntries(m, es[..|es| - 1])[es[|es| - 1].key := es[|es| - 1].record]
  }

  function RemoveEntries(m: map<HistoryKey, HistoryRecord>, es: seq<HistoryEntry>): map<HistoryKey, HistoryRecord> {
    if es == [] then m else RemoveEntries(m, es[..|es| - 1]) - {es[|es| - 1].key}
  }

  lemma {:induction false} AddIdsAt(m: map<TxId, Hash>, ids: seq<TxId>, h: Hash)
    ensures forall id :: id in AddIds(m, ids, h) <==> id in m || id in ids
    ensures forall id :: id in AddIds(m, ids, h) ==> AddIds(m, ids, h)[id] == if id in ids then h else m[id]
  {
    if ids != [] {
      var front := ids[..|ids| - 1];
      AddIdsAt(m, front, h);
      assert ids == front + [ids[|ids| - 1]];
    }
  }

  lemma {:induction false} RemoveIdsAt(m: map<TxId, Hash>, ids: seq<TxId>)
    ensures forall id :: id in RemoveIds(m, ids) <==> id in m && id !in ids
    ensures forall id :: id in RemoveIds(m, ids) ==> RemoveIds(m, ids)[id] == m[id]
  {
    if ids != [] {
      var front := ids[..|ids| - 1];
      RemoveIdsAt(m, front);
      assert ids == front + [ids[|ids| - 1]];
    }
  }

  ghost predicate HasKey(es: seq<HistoryEntry>, k: HistoryKey) {
    exists i :: 0 <= i < |es| && es[i].key == k
  }

  lemma HasKeyLast(es: seq<HistoryEntry>, k: HistoryKey)
    requires es != []
    ensures HasKey(es, k) <==> HasKey(es[..|es| - 1], k) || es[|es| - 1].key == k
  {
    var front := es[..|es| - 1];
    if HasKey(es, k) && es[|es| - 1].key != k {
      var i :| 0 <= i < |es| && es[i].key == k;
      assert front[i].key == k;
    }
    if HasKey(front, k) {
      var i :| 0 <= i < |front| && front[i].key == k;
      assert es[i].key == k;
    }
  }

  lemma {:induction false} AddEntriesAt(m: map<HistoryKey, HistoryRecord>, es: seq<HistoryEntry>, k: HistoryKey)
    ensures k in AddEntries(m, es) <==> k in m || HasKey(es, k)
    ensures k in m && !HasKey(es, k) ==> AddEntries(m, es)[k] == m[k]
  {
    if es != [] {
      HasKeyLast(es, k);
      AddEntriesAt(m, es[..|es| - 1], k);
    }
  }

  lemma {:induction false} RemoveEntriesAt(m: map<HistoryKey, HistoryRecord>, es: seq<HistoryEntry>, k: HistoryKey)
    ensures k in RemoveEntries(m, es) <==> k in m && !HasKey(es, k)
    ensures k in RemoveEntries(m, es) ==> RemoveEntries(m, es)[k] == m[k]
  {
    if es != [] {
      HasKeyLast(es, k);
      RemoveEntriesAt(m, es[..|es| - 1], k);
    }
  }

  lemma RemoveAddedIds(m: map<TxId, Hash>, ids: seq<TxId>, h: Hash)
    requires forall id :: id in ids ==> id !in m
    ensures RemoveIds(AddIds(m, ids, h), ids) == m
  {
    AddIdsAt(m, ids, h);
    RemoveIdsAt(AddIds(m, ids, h), ids);
  }

  lemma RemoveAddedEntries(m: map<HistoryKey, HistoryRecord>, es: seq<HistoryEntry>)
    requires forall k :: HasKey(es, k) ==> k !in m
    ensures RemoveEntries(AddEntries(m, es), es) == m
  {
    var added := AddEntries(m, es);
    forall k ensures k in RemoveEntries(added, es) <==> k in m {
      AddEntriesAt(m, es, k);
      RemoveEntriesAt(added, es, k);
    }
    forall k | k in m ensures RemoveEntries(added, es)[k] == m[k] {
      AddEntriesAt(m, es, k);
      RemoveEntriesAt(added, es, k);
    }
  }

  // ----- Extending and retracting -----

  function Extend(ix: Indexes, x: Stored): Indexes {
    Indexes(
      ix.heights[x.block.height := x.hash],
      AddIds(ix.txs, IdsOf(x.block), x.hash),
      AddEntries(ix.history, Entries(x.block, x.hash)))
  }

  function Retract(ix: Indexes, x: Stored): Indexes {
    Indexes(
      ix.heights - {x.block.height},
      RemoveIds(ix.txs, IdsOf(x.block)),
      RemoveEntries(ix.history, Entries(x.block, x.hash)))
  }

  function ExtendAll(ix: Indexes, xs: seq<Stored>): Indexes {
    if xs == [] then ix else Extend(ExtendAll(ix, xs[..|xs| - 1]), xs[|xs| - 1])
  }

  function RetractAll(ix: Indexes, xs: seq<Stored>): Indexes {
    if xs == [] then ix else Retract(RetractAll(ix, xs[..|xs| - 1]), xs[|xs| - 1])
  }

  /** What a rebuild of the indexes over the chain gives. */
  function IndexOf(genesis: Hash, chain: seq<Stored>): Indexes {
    ExtendAll(Indexes(map[0 := genesis], map[], map[]), chain)
  }

  lemma {:induction false} ExtendAllThen(ix: Indexes, xs: seq<Stored>, ys: seq<Stored>)
    ensures ExtendAll(ix, xs + ys) == ExtendAll(ExtendAll(ix, xs), ys)
  {
    if ys == [] {
      assert xs + ys == xs;
    } else {
      assert (xs + ys)[..|xs + ys| - 1] == xs + ys[..|ys| - 1];
      ExtendAllThen(ix, xs, ys[..|ys| - 1]);
    }
  }

  // ----- Chains -----

  function TipOf(genesis: Hash, chain: seq<Stored>): Hash {
    if chain == [] then genesis else chain[|chain| - 1].hash
  }

  /** Parent-linked from genesis, heights counting up from one. */
  ghost predicate Linked(genesis: Hash, chain: seq<Stored>) {
    && (forall i :: 0 <= i < |chain| ==> chain[i].block.height == i + 1)
    && (forall i: nat :: i < |chain| ==> LinkedAt(genesis, chain, i))
  }

  ghost predicate LinkedAt(genesis: Hash, chain: seq<Stored>, i: nat)
    requires i < |chain|
  {
    chain[i].block.parent == TipOf(genesis, chain[..i])
  }

  /** No transaction id occurs twice, in one block or in two. */
  ghost predicate TransactionsUnique(chain: seq<Stored>) {
    && (forall i :: 0 <= i < |chain| ==> NoRepeats(IdsOf(chain[i].block)))
    && (forall i, j, id :: 0 <= i < j < |chain| && id in IdsOf(chain[i].block) ==> id !in IdsOf(chain[j].block))
  }

  lemma {:induction false} HeightsOfChain(genesis: Hash, chain: seq<Stored>)
    requires Linked(genesis, chain)
    ensures var heights := IndexOf(genesis, chain).heights;
            && (forall n: nat :: n in heights <==> n <= |chain|)
            && heights[0] == genesis && heights[|chain|] == TipOf(genesis, chain)
            && forall i :: 0 <= i < |chain| ==> heights[i + 1] == chain[i].hash
  {
    hide AddIds, AddEntries;
    if chain != [] {
      var n := |chain| - 1;
      LinkedPrefix(genesis, chain, n);
      HeightsOfChain(genesis, chain[..n]);
      LastHeight(genesis, chain);
    }
  }

  /** The last block of a linked chain sits at the chain's length. */
  lemma LastHeight(genesis: Hash, chain: seq<Stored>)
    requires chain != [] && Linked(genesis, chain)
    ensures chain[|chain| - 1].block.height == |chain|
    ensures IndexOf(genesis, chain).heights ==
            IndexOf(genesis, chain[..|chain| - 1]).heights[|chain| := chain[|chain| - 1].hash]
  {
    hide AddIds, AddEntries, TipOf;
  }

  lemma LinkedPrefix(genesis: Hash, chain: seq<Stored>, n: nat)
    requires Linked(genesis, chain) && n <= |chain|
    ensures Linked(genesis, chain[..n])
  {
    forall i: nat | i < n ensures LinkedAt(genesis, chain[..n], i) {
      assert LinkedAt(genesis, chain, i);
      assert chain[..n][..i] == chain[..i];
    }
  }

  lemma UniquePrefix(chain: seq<Stored>, n: nat)
    requires TransactionsUnique(chain) && n <= |chain|
    ensures TransactionsUnique(chain[..n])
  {
    var front := chain[..n];
    assert forall i :: 0 <= i < n ==> front[i] == chain[i];
  }

  /** The transaction index says of every id which block of the chain holds it. */
  lemma {:induction false} TxsOfChain(genesis: Hash, chain: seq<Stored>)
    requires TransactionsUnique(chain)
    ensures var txs := IndexOf(genesis, chain).txs;
            && (forall id :: id in txs <==> exists i :: 0 <= i < |chain| && id in IdsOf(chain[i].block))
            && (forall i, id :: 0 <= i < |chain| && id in IdsOf(chain[i].block) ==> id in txs && txs[id] == chain[i].hash)
  {
    hide AddIds, AddEntries, NoRepeats;
    if chain != [] {
      var n := |chain| - 1;
      UniquePrefix(chain, n);
      TxsOfChain(genesis, chain[..n]);
      var before := IndexOf(genesis, chain[..n]).txs;
      AddIdsAt(before, IdsOf(chain[n].block), chain[n].hash);
      forall id ensures id in IndexOf(genesis, chain).txs <==> exists i :: 0 <= i < |chain| && id in IdsOf(chain[i].block) {
        if exists i :: 0 <= i < |chain| && id in IdsOf(chain[i].block) {
          var i :| 0 <= i < |chain| && id in IdsOf(chain[i].block);
          assert i < n ==> chain[..n][i] == chain[i];
        }
        if id in before {
          var i :| 0 <= i < n && id in IdsOf(chain[..n][i].block);
          assert chain[..n][i] == chain[i];
        }
      }
      forall i, id | 0 <= i < |chain| && id in IdsOf(chain[i].block)
        ensures id in IndexOf(genesis, chain).txs && IndexOf(genesis, chain).txs[id] == chain[i].hash
      {
        assert i < n ==> chain[..n][i] == chain[i];
      }
    }
  }

  lemma {:induction false} HistoryOfChain(genesis: Hash, chain: seq<Stored>, k: HistoryKey)
    requires Linked(genesis, chain)
    ensures k in IndexOf(genesis, chain).history ==> 1 <= k.height <= |chain|
  {
    if chain != [] {
      var n := |chain| - 1;
      LinkedPrefix(genesis, chain, n);
      HistoryOfChain(genesis, chain[..n], k);
      EntryKeys(chain[n].block, chain[n].hash);
      AddEntriesAt(IndexOf(genesis, chain[..n]).history, Entries(chain[n].block, chain[n].hash), k);
    }
  }

  /** Retracting the last block of a chain undoes extending by it. */
  lemma RetractLast(genesis: Hash, chain: seq<Stored>)
    requires chain != [] && Linked(genesis, chain) && TransactionsUnique(chain)
    ensures Retract(IndexOf(genesis, chain), chain[|chain| - 1]) == IndexOf(genesis, chain[..|chain| - 1])
  {
    var n := |chain| - 1;
    var last, before := chain[n], IndexOf(genesis, chain[..n]);
    LinkedPrefix(genesis, chain, n);
    UniquePrefix(chain, n);
    HeightsOfChain(genesis, chain[..n]);
    TxsOfChain(genesis, chain[..n]);
    assert forall i :: 0 <= i < n ==> chain[..n][i] == chain[i];
    assert forall id :: id in IdsOf(last.block) ==> id !in before.txs;
    RemoveAddedIds(before.txs, IdsOf(last.block), last.hash);
    EntryKeys(last.block, last.hash);
    forall k | HasKey(Entries(last.block, last.hash), k) ensures k !in before.history {
      HistoryOfChain(genesis, chain[..n], k);
    }
    RemoveAddedEntries(before.history, Entries(last.block, last.hash));
    assert before.heights[n + 1 := last.hash] - {n + 1} == before.heights;
  }

  /** Retracting blocks from the head down leaves the indexes of the shorter chain. */
  lemma {:induction false} RetractDown(genesis: Hash, chain: seq<Stored>, olds: seq<Stored>)
    requires Linked(genesis, chain) && TransactionsUnique(chain) && |olds| <= |chain|
    requires forall j :: 0 <= j < |olds| ==> olds[j] == chain[|chain| - 1 - j]
    ensures RetractAll(IndexOf(genesis, chain), olds) == IndexOf(genesis, chain[..|chain| - |olds|])
  {
    hide Linked, TransactionsUnique, IndexOf, Retract;
    if olds == [] {
      assert chain[..|chain|] == chain;
    } else {
      var m := |olds| - 1;
      RetractDown(genesis, chain, olds[..m]);
      var rest := chain[..|chain| - m];
      LinkedPrefix(genesis, chain, |chain| - m);
      UniquePrefix(chain, |chain| - m);
      RetractLast(genesis, rest);
      assert rest[..|rest| - 1] == chain[..|chain| - |olds|];
      assert olds[m] == rest[|rest| - 1];
    }
  }
}
