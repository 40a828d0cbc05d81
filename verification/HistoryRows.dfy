/** The address history, row by row: what it holds under any key, told from the main chain. */
module HistoryRows {

  import opened AddressHistory
  import opened Blocks
  import opened LedgerIndex
  import opened LedgerRuns
  import opened LedgerSpec
  import opened Votes
  import opened Wrappers

  /** The key names one of the first `n` transactions of the block, one of its effects, and the address that touches. */
  predicate Names(b: Block, n: nat, k: HistoryKey) {
    && k.height == b.height && k.txIndex < n <= |b.transactions|
    && var tx := b.transactions[k.txIndex];
    && tx.id == k.id && tx.effects.Some? && k.effectIndex < |tx.effects.value|
    && tx.effects.value[k.effectIndex].address == k.address
  }

  /** What is told of the effect a key names. */
  function Told(b: Block, hash: Hash, k: HistoryKey): HistoryRecord
    requires Names(b, |b.transactions|, k)
  {
    var tx := b.transactions[k.txIndex];
    HistoryRecord(k.id, tx.effects.value[k.effectIndex].detail, k.height, b.slot, hash, tx.submitted)
  }

  // ----- Adding one block -----

  lemma {:induction false} AddInTwo(m: map<HistoryKey, HistoryRecord>, s: seq<HistoryEntry>, t: seq<HistoryEntry>)
    ensures AddEntries(m, s + t) == AddEntries(AddEntries(m, s), t)
  {
    if t == [] {
      assert s + t == s;
    } else {
      assert (s + t)[..|s + t| - 1] == s + t[..|t| - 1];
      AddInTwo(m, s, t[..|t| - 1]);
    }
  }

  lemma {:induction false} EffectsAdd(m: map<HistoryKey, HistoryRecord>, b: Block, hash: Hash, i: nat, c: nat, k: HistoryKey)
    requires i < |b.transactions| && Indexable(b.transactions[i]) && c <= |b.transactions[i].effects.value|
    ensures var after := AddEntries(m, TransactionEntries(b, hash, i, c));
            var named := Names(b, i + 1, k) && k.txIndex == i && k.effectIndex < c;
            && (k in after <==> named || k in m)
            && (k in after ==> after[k] == if named then Told(b, hash, k) else m[k])
  {
    if c > 0 {
      var es := TransactionEntries(b, hash, i, c);
      assert es[..c - 1] == TransactionEntries(b, hash, i, c - 1);
      EffectsAdd(m, b, hash, i, c - 1, k);
      assert AddEntries(m, es) == AddEntries(m, es[..c - 1])[es[c - 1].key := es[c - 1].record];
    }
  }

  lemma {:induction false} TransactionsAdd(m: map<HistoryKey, HistoryRecord>, b: Block, hash: Hash, n: nat, k: HistoryKey)
    requires n <= |b.transactions| && forall i :: 0 <= i < n ==> Indexable(b.transactions[i])
    ensures var after := AddEntries(m, EntriesUpTo(b, hash, n));
            && (k in after <==> Names(b, n, k) || k in m)
            && (k in after ==> after[k] == if Names(b, n, k) then Told(b, hash, k) else m[k])
  {
    hide TransactionEntries;
    if n > 0 {
      assert Indexable(b.transactions[n - 1]);
      var c := |b.transactions[n - 1].effects.value|;
      TransactionsAdd(m, b, hash, n - 1, k);
      hide AddEntries;
      AddInTwo(m, EntriesUpTo(b, hash, n - 1), TransactionEntries(b, hash, n - 1, c));
      EffectsAdd(AddEntries(m, EntriesUpTo(b, hash, n - 1)), b, hash, n - 1, c, k);
    }
  }

  // ----- The main chain -----

  /** The row under a key: there is one exactly if the main-chain block of that height has that effect in that place. */
  function RowOf(chain: seq<Stored>, k: HistoryKey): Option<HistoryRecord> {
    if !(1 <= k.height <= |chain|) then None
    else
      var x := chain[k.height - 1];
      if Names(x.block, |x.block.transactions|, k) then Some(Told(x.block, x.hash, k)) else None
  }

  lemma {:induction false} ChainRows(genesis: Hash, chain: seq<Stored>, k: HistoryKey)
    requires AllIndexable(chain) && forall i :: 0 <= i < |chain| ==> chain[i].block.height == i + 1
    ensures var history, row := IndexOf(genesis, chain).history, RowOf(chain, k);
            && (k in history <==> row.Some?) && (k in history ==> row == Some(history[k]))
  {
    hide Told, AddIds, AddEntries, EntriesUpTo;
    if chain != [] {
      var n := |chain| - 1;
      var x := chain[n];
      assert BlockIndexable(chain[n].block);
      assert forall i :: 0 <= i < n ==> chain[..n][i] == chain[i];
      ChainRows(genesis, chain[..n], k);
      TransactionsAdd(IndexOf(genesis, chain[..n]).history, x.block, x.hash, |x.block.transactions|, k);
    }
  }

  /** After every run, the history under any key is the effect it names on the main chain, with its block, slot and
      time, and nothing where the main chain has no such effect. */
  lemma HistoryAfterRun(w: World, s: State, actions: seq<Action>, k: HistoryKey)
    requires ValidWorld(w) && Sound(w, s) && AllLegal(w, actions)
    ensures var u := After(w, s, actions);
            var history, row := u.tables.indexes.history, RowOf(Chain(u), k);
            && (k in history <==> row.Some?) && (k in history ==> row == Some(history[k]))
  {
    hide ValidWorld, StoreSound, MemorySound, FinalitySound, After, Legal, RowOf, AllIndexable, TransactionsUnique;
    RunSound(w, s, actions);
    ChainRows(w.genesis, Chain(After(w, s, actions)), k);
  }
}
