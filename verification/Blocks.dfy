/** Blocks, chain heads and commit requests, as the ledger sees them. */
module Blocks {

  import opened Bytes
  import opened ChainState
  import opened Votes
  import opened Wrappers

  type TxId = Bytes

  /** What one instruction did to one address, for the address history. */
  datatype Effect = Effect(address: Address, detail: nat)

  /** `effects` is absent when an instruction of the transaction does not decode. */
  datatype Transaction = Transaction(id: TxId, effects: Option<seq<Effect>>, submitted: int)

  /** A block proposal. `rewardsIndexable` says that its reward certificates pass their index checks;
      `rest` stands for the parts the ledger stores but does not look at. */
  datatype Block = Block(
    chainId: string,
    height: nat,
    slot: nat,
    epoch: nat,
    parent: Hash,
    stateRoot: Hash,
    transactions: seq<Transaction>,
    rewardsIndexable: bool,
    rest: nat)

  datatype Head = Head(
    chainId: string,
    height: nat,
    slot: nat,
    blockHash: Hash,
    qcHash: Hash,
    stateRoot: Hash,
    epoch: nat,
    finalizedHeight: nat,
    finalizedHash: Hash)

  datatype Request = Request(block: Block, next: Accounts, qc: Option<Certificate>)

  /** The hash functions of the node and the order of hashes by their text form. */
  datatype Hashing = Hashing(
    block: Block -> Hash,
    root: Accounts -> Hash,
    canonicalQC: Certificate -> Hash,
    fullQC: Certificate -> Hash,
    textLess: (Hash, Hash) -> bool)

  /** Hashes collide neither among blocks nor among states, the genesis hash is no block's, and the text
      order is strict. */
  ghost predicate Collisionless(hashing: Hashing, genesis: Hash) {
    && (forall b, c :: hashing.block(b) == hashing.block(c) ==> b == c)
    && (forall m, n :: hashing.root(m) == hashing.root(n) ==> m == n)
    && (forall b :: hashing.block(b) != genesis)
    && (forall h :: !hashing.textLess(h, h))
    && (forall g, h, k :: hashing.textLess(g, h) && hashing.textLess(h, k) ==> hashing.textLess(g, k))
  }

  function IdsOf(b: Block): (ids: seq<TxId>)
    ensures |ids| == |b.transactions|
    ensures forall i :: 0 <= i < |ids| ==> ids[i] == b.transactions[i].id
  {
    seq(|b.transactions|, i requires 0 <= i < |b.transactions| => b.transactions[i].id)
  }

  ghost predicate NoRepeats(ids: seq<TxId>) {
    forall i, j :: 0 <= i < j < |ids| ==> ids[i] != ids[j]
  }

  /** A block's transaction ids in order, unless one occurs twice. */
  method TransactionIds(b: Block) returns (r: Option<seq<TxId>>)
    ensures r.Some? <==> NoRepeats(IdsOf(b))
    ensures r.Some? ==> r.value == IdsOf(b)
  {
    var ids: seq<TxId> := [];
    var seen: set<TxId> := {};
    for i := 0 to |b.transactions|
      invariant ids == IdsOf(b)[..i] && NoRepeats(ids)
      invariant seen == Elements(ids)
    {
      var id := b.transactions[i].id;
      if id in seen {
        assert id in ids;
        return None;
      }
      ElementsOfPrefix(IdsOf(b), i);
      seen := seen + {id};
      ids := ids + [id];
    }
    return Some(ids);
  }
}
