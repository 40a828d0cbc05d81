/** The ledger's tables, the operations a transaction applies to them, and what holds between tables and memory. */
module LedgerStore {

  import opened AddressHistory
  import opened Blocks
  import opened ChainState
  import opened LedgerIndex
  import opened Votes
  import opened Wrappers

  /** Snapshot rows are keyed by block hash and address: one account map per block hash. */
  datatype Tables = Tables(
    blocks: map<Hash, Block>,
    snapshots: map<Hash, Accounts>,
    indexes: Indexes,
    accounts: Accounts,
    head: Head,
    qcByHash: map<Hash, Certificate>,
    qcByBlock: map<Hash, Certificate>)

  datatype Operation =
    | PutBlock(hash: Hash, block: Block)
    | PutSnapshot(hash: Hash, rows: Accounts)
    | PutHeight(height: nat, hash: Hash)
    | DeleteHeight(height: nat)
    | PutTx(id: TxId, hash: Hash)
    | DeleteTx(id: TxId)
    | PutHistory(key: HistoryKey, record: HistoryRecord)
    | DeleteHistory(key: HistoryKey)
    | PutAccounts(rows: Accounts)
    | PutHead(head: Head)
    | PutQCByHash(hash: Hash, qc: Certificate)
    | PutQCByBlock(hash: Hash, qc: Certificate)

  function Snapshot(t: Tables, h: Hash): Accounts {
    if h in t.snapshots then t.snapshots[h] else map[]
  }

  function Apply(t: Tables, op: Operation): Tables {
    var ix := t.indexes;
    match op
    case PutBlock(h, b) => t.(blocks := t.blocks[h := b])
    case PutSnapshot(h, rows) => t.(snapshots := t.snapshots[h := Snapshot(t, h) + rows])
    case PutHeight(n, h) => t.(indexes := ix.(heights := ix.heights[n := h]))
    case DeleteHeight(n) => t.(indexes := ix.(heights := ix.heights - {n}))
    case PutTx(id, h) => t.(indexes := ix.(txs := ix.txs[id := h]))
    case DeleteTx(id) => t.(indexes := ix.(txs := ix.txs - {id}))
    case PutHistory(k, r) => t.(indexes := ix.(history := ix.history[k := r]))
    case DeleteHistory(k) => t.(indexes := ix.(history := ix.history - {k}))
    case PutAccounts(rows) => t.(accounts := t.accounts + rows)
    case PutHead(head) => t.(head := head)
    case PutQCByHash(h, qc) => t.(qcByHash := t.qcByHash[h := qc])
    case PutQCByBlock(h, qc) => t.(qcByBlock := t.qcByBlock[h := qc])
  }

  /** One database transaction: the operations in order, all of them. */
  function ApplyAll(t: Tables, ops: seq<Operation>): Tables {
    if ops == [] then t else Apply(ApplyAll(t, ops[..|ops| - 1]), ops[|ops| - 1])
  }

  lemma {:induction false} ApplyThen(t: Tables, xs: seq<Operation>, ys: seq<Operation>)
    ensures ApplyAll(t, xs + ys) == ApplyAll(ApplyAll(t, xs), ys)
  {
    if ys == [] {
      assert xs + ys == xs;
    } else {
      assert (xs + ys)[..|xs + ys| - 1] == xs + ys[..|ys| - 1];
      ApplyThen(t, xs, ys[..|ys| - 1]);
    }
  }

  lemma ApplyOne(t: Tables, ops: seq<Operation>, op: Operation)
    ensures ApplyAll(t, ops + [op]) == Apply(ApplyAll(t, ops), op)
  {
    assert (ops + [op])[..|ops + [op]| - 1] == ops;
  }

  // ----- The operation lists of one block -----

  /** Append the transaction index rows of a block. */
  method AppendTxPuts(ghost t: Tables, ops: seq<Operation>, ids: seq<TxId>, h: Hash) returns (r: seq<Operation>)
    ensures ApplyAll(t, r) == var s := ApplyAll(t, ops); s.(indexes := s.indexes.(txs := AddIds(s.indexes.txs, ids, h)))
  {
    r := ops;
    ghost var s := ApplyAll(t, ops);
    for i := 0 to |ids|
      invariant ApplyAll(t, r) == s.(indexes := s.indexes.(txs := AddIds(s.indexes.txs, ids[..i], h)))
    {
      ApplyOne(t, r, PutTx(ids[i], h));
      assert ids[..i + 1][..i] == ids[..i];
      r := r + [PutTx(ids[i], h)];
    }
    assert ids[..|ids|] == ids;
  }

  method AppendTxDeletes(ghost t: Tables, ops: seq<Operation>, ids: seq<TxId>) returns (r: seq<Operation>)
    ensures ApplyAll(t, r) == var s := ApplyAll(t, ops); s.(indexes := s.indexes.(txs := RemoveIds(s.indexes.txs, ids)))
  {
    r := ops;
    ghost var s := ApplyAll(t, ops);
    for i := 0 to |ids|
      invariant ApplyAll(t, r) == s.(indexes := s.indexes.(txs := RemoveIds(s.indexes.txs, ids[..i])))
    {
      ApplyOne(t, r, DeleteTx(ids[i]));
      assert ids[..i + 1][..i] == ids[..i];
      r := r + [DeleteTx(ids[i])];
    }
    assert ids[..|ids|] == ids;
  }

  /** Append the address history rows of a block; fails when the block cannot be indexed. */
  method AppendHistoryPuts(ghost t: Tables, ops: seq<Operation>, b: Block, h: Hash) returns (r: Option<seq<Operation>>)
    ensures r.Some? <==> BlockIndexable(b)
    ensures r.Some? ==> ApplyAll(t, r.value) ==
                        var s := ApplyAll(t, ops); s.(indexes := s.indexes.(history := AddEntries(s.indexes.history, Entries(b, h))))
  {
    var entries := BuildEntries(b, h);
    if entries.None? {
      return None;
    }
    var es := entries.value;
    var out := ops;
    ghost var s := ApplyAll(t, ops);
    for i := 0 to |es|
      invariant ApplyAll(t, out) == s.(indexes := s.indexes.(history := AddEntries(s.indexes.history, es[..i])))
    {
      ApplyOne(t, out, PutHistory(es[i].key, es[i].record));
      assert es[..i + 1][..i] == es[..i];
      out := out + [PutHistory(es[i].key, es[i].record)];
    }
    assert es[..|es|] == es;
    return Some(out);
  }

  method AppendHistoryDeletes(ghost t: Tables, ops: seq<Operation>, b: Block, h: Hash) returns (r: Option<seq<Operation>>)
    ensures r.Some? <==> BlockIndexable(b)
    ensures r.Some? ==> ApplyAll(t, r.value) ==
                        var s := ApplyAll(t, ops); s.(indexes := s.indexes.(history := RemoveEntries(s.indexes.history, Entries(b, h))))
  {
    var entries := BuildEntries(b, h);
    if entries.None? {
      return None;
    }
    var es := entries.value;
    var out := ops;
    ghost var s := ApplyAll(t, ops);
    for i := 0 to |es|
      invariant ApplyAll(t, out) == s.(indexes := s.indexes.(history := RemoveEntries(s.indexes.history, es[..i])))
    {
      ApplyOne(t, out, DeleteHistory(es[i].key));
      assert es[..i + 1][..i] == es[..i];
      out := out + [DeleteHistory(es[i].key)];
    }
    assert es[..|es|] == es;
    return Some(out);
  }

  // ----- Rebuilding from the height table -----

  /** The main-chain blocks up to a height, as a rebuild reads them: heights without a row are skipped. */
  function MainBlocks(t: Tables, n: nat): seq<Stored> {
    if n == 0 then []
    else if n in t.indexes.heights && t.indexes.heights[n] in t.blocks then
      MainBlocks(t, n - 1) + [Stored(t.indexes.heights[n], t.blocks[t.indexes.heights[n]])]
    else MainBlocks(t, n - 1)
  }

  ghost predicate InBlocks(t: Tables, chain: seq<Stored>) {
    forall i :: 0 <= i < |chain| ==> chain[i].hash in t.blocks && t.blocks[chain[i].hash] == chain[i].block
  }

  /** The height table and the stored blocks give the chain back. */
  lemma {:induction false} MainBlocksReadBack(genesis: Hash, t: Tables, chain: seq<Stored>, n: nat)
    requires Linked(genesis, chain) && InBlocks(t, chain) && n <= |chain|
    requires t.indexes.heights == IndexOf(genesis, chain).heights
    ensures MainBlocks(t, n) == chain[..n]
  {
    hide Linked, IndexOf;
    HeightsOfChain(genesis, chain);
    if n > 0 {
      MainBlocksReadBack(genesis, t, chain, n - 1);
      assert t.indexes.heights[n] == chain[n - 1].hash;
      assert chain[..n] == chain[..n - 1] + [chain[n - 1]];
    }
  }
}
