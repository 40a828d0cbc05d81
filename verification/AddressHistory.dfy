/** The address history index: its keys, and the entries a block contributes. */
module AddressHistory {

  import opened Blocks
  import opened Bytes
  import opened ChainState
  import opened Votes
  import opened Wrappers

  const MAX_TRANSACTIONS := 0xFFFF
  const MAX_EFFECTS := 0x100

  datatype HistoryKey = HistoryKey(address: Address, height: nat, txIndex: nat, effectIndex: nat, id: TxId)

  datatype HistoryRecord = HistoryRecord(id: TxId, detail: nat, height: nat, slot: nat, blockHash: Hash, submitted: int)

  datatype HistoryEntry = HistoryEntry(key: HistoryKey, record: HistoryRecord)

  // ----- Entries of one block -----

  function EntryOf(b: Block, hash: Hash, i: nat, j: nat): HistoryEntry
    requires i < |b.transactions| && b.transactions[i].effects.Some? && j < |b.transactions[i].effects.value|
  {
    var tx := b.transactions[i];
    HistoryEntry(
      HistoryKey(tx.effects.value[j].address, b.height, i, j, tx.id),
      HistoryRecord(tx.id, tx.effects.value[j].detail, b.height, b.slot, hash, tx.submitted))
  }

  predicate Indexable(tx: Transaction) {
    tx.effects.Some? && |tx.effects.value| <= MAX_EFFECTS
  }

  function TransactionEntries(b: Block, hash: Hash, i: nat, n: nat): seq<HistoryEntry>
    requires i < |b.transactions| && Indexable(b.transactions[i]) && n <= |b.transactions[i].effects.value|
  {
    seq(n, j requires 0 <= j < n => EntryOf(b, hash, i, j))
  }

  function EntriesUpTo(b: Block, hash: Hash, n: nat): seq<HistoryEntry>
    requires n <= |b.transactions| && forall i :: 0 <= i < n ==> Indexable(b.transactions[i])
  {
    if n == 0 then []
    else
      assert Indexable(b.transactions[n - 1]);
      EntriesUpTo(b, hash, n - 1) + TransactionEntries(b, hash, n - 1, |b.transactions[n - 1].effects.value|)
  }

  /** A block can be indexed when it has at most 65535 transactions, all of which decode into at most
      256 effects. */
  predicate BlockIndexable(b: Block) {
    |b.transactions| <= MAX_TRANSACTIONS && forall i :: 0 <= i < |b.transactions| ==> Indexable(b.transactions[i])
  }

  function Entries(b: Block, hash: Hash): seq<HistoryEntry> {
    if BlockIndexable(b) then EntriesUpTo(b, hash, |b.transactions|) else []
  }

  method BuildEntries(b: Block, hash: Hash) returns (r: Option<seq<HistoryEntry>>)
    ensures r.Some? <==> BlockIndexable(b)
    ensures r.Some? ==> r.value == Entries(b, hash)
  {
    if |b.transactions| > MAX_TRANSACTIONS {
      return None;
    }
    var entries: seq<HistoryEntry> := [];
    for i := 0 to |b.transactions|
      invariant forall k :: 0 <= k < i ==> Indexable(b.transactions[k])
      invariant entries == EntriesUpTo(b, hash, i)
    {
      var effects := b.transactions[i].effects;
      if effects.None? {
        return None;
      }
      ghost var before := entries;
      for j := 0 to |effects.value|
        invariant j <= MAX_EFFECTS
        invariant entries == before + seq(j, k requires 0 <= k < j => EntryOf(b, hash, i, k))
      {
        if j > 0xFF {
          return None;
        }
        entries := entries + [EntryOf(b, hash, i, j)];
      }
    }
    return Some(entries);
  }

  ghost predicate DistinctKeys(entries: seq<HistoryEntry>) {
    forall i, j :: 0 <= i < j < |entries| ==> entries[i].key != entries[j].key
  }

  lemma {:induction false} EntriesUpToKeys(b: Block, hash: Hash, n: nat)
    requires n <= |b.transactions| && forall i :: 0 <= i < n ==> Indexable(b.transactions[i])
    ensures var entries := EntriesUpTo(b, hash, n);
            && DistinctKeys(entries)
            && forall k :: 0 <= k < |entries| ==> entries[k].key.height == b.height && entries[k].key.txIndex < n
  {
    if n > 0 {
      EntriesUpToKeys(b, hash, n - 1);
    }
  }

  /** No two entries of a block share a key, and every key carries the block's height. */
  lemma EntryKeys(b: Block, hash: Hash)
    ensures DistinctKeys(Entries(b, hash))
    ensures forall k :: 0 <= k < |Entries(b, hash)| ==> Entries(b, hash)[k].key.height == b.height
  {
    if BlockIndexable(b) {
      EntriesUpToKeys(b, hash, |b.transactions|);
    }
  }

  // ----- Stored form of a key -----

  function Power256(w: nat): nat {
    if w == 0 then 1 else 256 * Power256(w - 1)
  }

  function BigEndian(n: nat, width: nat): (r: Bytes)
    ensures |r| == width
  {
    if width == 0 then [] else BigEndian(n / 256, width - 1) + [(n % 256) as Byte]
  }

  function FromBigEndian(s: Bytes): nat {
    if s == [] then 0 else FromBigEndian(s[..|s| - 1]) * 256 + s[|s| - 1] as nat
  }

  lemma {:induction false} BigEndianRoundTrip(n: nat, width: nat)
    requires n < Power256(width)
    ensures FromBigEndian(BigEndian(n, width)) == n
  {
    if width > 0 {
      BigEndianRoundTrip(n / 256, width - 1);
      assert BigEndian(n, width)[..width - 1] == BigEndian(n / 256, width - 1);
    }
  }

  ghost predicate Storable(k: HistoryKey) {
    k.address < Power256(32) && k.height < Power256(8) && k.txIndex < Power256(2) && k.effectIndex < Power256(1)
  }

  /** Address, height, position of the transaction, position of the effect, transaction id. */
  function EncodeHistoryKey(k: HistoryKey): Bytes {
    BigEndian(k.address, 32) + BigEndian(k.height, 8) + BigEndian(k.txIndex, 2) + BigEndian(k.effectIndex, 1) + k.id
  }

  function DecodeHistoryKey(s: Bytes): HistoryKey
    requires |s| >= 43
  {
    HistoryKey(FromBigEndian(s[..32]), FromBigEndian(s[32..40]), FromBigEndian(s[40..42]), FromBigEndian(s[42..43]), s[43..])
  }

  /** The stored form loses nothing, so distinct keys are distinct rows. */
  lemma HistoryKeyRoundTrip(k: HistoryKey)
    requires Storable(k)
    ensures |EncodeHistoryKey(k)| >= 43
    ensures DecodeHistoryKey(EncodeHistoryKey(k)) == k
  {
    var s := EncodeHistoryKey(k);
    assert s[..32] == BigEndian(k.address, 32);
    assert s[32..40] == BigEndian(k.height, 8);
    assert s[40..42] == BigEndian(k.txIndex, 2);
    assert s[42..43] == BigEndian(k.effectIndex, 1);
    assert s[43..] == k.id;
    BigEndianRoundTrip(k.address, 32);
    BigEndianRoundTrip(k.height, 8);
    BigEndianRoundTrip(k.txIndex, 2);
    BigEndianRoundTrip(k.effectIndex, 1);
  }

  /** The block's numbers have the width of the source's types. */
  ghost predicate FitsWidths(b: Block) {
    && b.height < Power256(8)
    && forall i, j :: 0 <= i < |b.transactions| && b.transactions[i].effects.Some? && 0 <= j < |b.transactions[i].effects.value| ==>
         b.transactions[i].effects.value[j].address < Power256(32)
  }

  lemma {:induction false} EntriesStorable(b: Block, hash: Hash, n: nat)
    requires FitsWidths(b) && n <= |b.transactions| <= MAX_TRANSACTIONS
    requires forall i :: 0 <= i < n ==> Indexable(b.transactions[i])
    ensures forall k :: 0 <= k < |EntriesUpTo(b, hash, n)| ==> Storable(EntriesUpTo(b, hash, n)[k].key)
  {
    if n > 0 {
      EntriesStorable(b, hash, n - 1);
      assert Power256(2) == 0x10000 && Power256(1) == 0x100 by {
        assert Power256(0) == 1;
      }
    }
  }

  /** The rows of any two blocks collide in storage only where their keys are equal: the limits of the builder keep
      both positions within the bytes they are stored in. Within a block no two rows collide. */
  lemma StoredRowsAreKeys(b: Block, bHash: Hash, c: Block, cHash: Hash)
    requires FitsWidths(b) && FitsWidths(c)
    ensures forall i, j :: 0 <= i < |Entries(b, bHash)| && 0 <= j < |Entries(c, cHash)| ==>
              (EncodeHistoryKey(Entries(b, bHash)[i].key) == EncodeHistoryKey(Entries(c, cHash)[j].key) <==>
               Entries(b, bHash)[i].key == Entries(c, cHash)[j].key)
    ensures forall i, j :: 0 <= i < j < |Entries(b, bHash)| ==>
              EncodeHistoryKey(Entries(b, bHash)[i].key) != EncodeHistoryKey(Entries(b, bHash)[j].key)
  {
    hide EncodeHistoryKey, DecodeHistoryKey, Storable, EntriesUpTo;
    KeysDecode(b, bHash);
    KeysDecode(c, cHash);
    EntryKeys(b, bHash);
  }

  lemma KeysDecode(b: Block, hash: Hash)
    requires FitsWidths(b)
    ensures forall k :: 0 <= k < |Entries(b, hash)| ==>
              var key := Entries(b, hash)[k].key;
              |EncodeHistoryKey(key)| >= 43 && DecodeHistoryKey(EncodeHistoryKey(key)) == key
  {
    hide EncodeHistoryKey, DecodeHistoryKey, Storable, EntriesUpTo;
    if BlockIndexable(b) {
      EntriesStorable(b, hash, |b.transactions|);
      forall k | 0 <= k < |Entries(b, hash)|
        ensures |EncodeHistoryKey(Entries(b, hash)[k].key)| >= 43
        ensures DecodeHistoryKey(EncodeHistoryKey(Entries(b, hash)[k].key)) == Entries(b, hash)[k].key
      {
        HistoryKeyRoundTrip(Entries(b, hash)[k].key);
      }
    }
  }
}
