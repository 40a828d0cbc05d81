/** Saving certificates: the best one per block, and which one the head carries. */
module LedgerQC {

  import opened Blocks
  import opened LedgerCommit
  import opened LedgerIndex
  import opened LedgerSpec
  import opened LedgerStore
  import opened Votes

  predicate BetterRewardQC(w: World, candidate: Certificate, current: Certificate) {
    if candidate.confirmed != current.confirmed then candidate.confirmed > current.confirmed
    else if |candidate.voters| != |current.voters| then |candidate.voters| > |current.voters|
    else if candidate.createdAt != current.createdAt then candidate.createdAt > current.createdAt
    else if candidate.height != current.height then candidate.height > current.height
    else w.hashing.textLess(candidate.hash, current.hash)
  }

  predicate BetterHeadQC(w: World, candidate: Certificate, current: Certificate, head: Head) {
    if candidate.height != current.height then candidate.height > current.height
    else if candidate.slot != current.slot then candidate.slot > current.slot
    else if (candidate.hash == head.blockHash) != (current.hash == head.blockHash) then candidate.hash == head.blockHash
    else BetterRewardQC(w, candidate, current)
  }

  predicate OnMainChain(t: Tables, head: Head, qc: Certificate) {
    && 0 < qc.height <= head.height
    && qc.height in t.indexes.heights && t.indexes.heights[qc.height] == qc.hash
  }

  predicate ShouldPromote(w: World, t: Tables, head: Head, candidate: Certificate) {
    && OnMainChain(t, head, candidate)
    && (head.qcHash != ZERO_HASH && head.qcHash in t.qcByHash && OnMainChain(t, head, t.qcByHash[head.qcHash]) ==>
          BetterHeadQC(w, candidate, t.qcByHash[head.qcHash], head))
  }

  ghost predicate SaveAllowed(qc: Certificate) {
    ValidCertificate(qc) && qc.voteType == Confirm
  }

  /** Whether the new certificate becomes its block's best one. */
  predicate Improves(w: World, t: Tables, qc: Certificate) {
    qc.hash == ZERO_HASH || qc.hash !in t.qcByBlock || BetterRewardQC(w, qc, t.qcByBlock[qc.hash])
  }

  function BestQC(w: World, t: Tables, qc: Certificate): Certificate {
    if Improves(w, t, qc) then qc else t.qcByBlock[qc.hash]
  }

  /** The certificate under its full hash, and as its block's best one if it is. */
  function WithQC(w: World, t: Tables, qc: Certificate): Tables {
    var u := t.(qcByHash := t.qcByHash[w.hashing.fullQC(qc) := qc]);
    if Improves(w, t, qc)
    then u.(qcByBlock := u.qcByBlock[qc.hash := qc], qcByHash := u.qcByHash[w.hashing.canonicalQC(qc) := qc])
    else u
  }

  function SavedQC(w: World, s: State, qc: Certificate): State {
    var u, best := WithQC(w, s.tables, qc), BestQC(w, s.tables, qc);
    if !ShouldPromote(w, s.tables, s.head, best) then s.(tables := u)
    else
      var head := s.head.(qcHash := w.hashing.canonicalQC(best));
      s.(tables := u.(qcByHash := u.qcByHash[head.qcHash := best], head := head), head := head)
  }

  /** Saving a certificate keeps the invariant and moves nothing but certificates. */
  lemma QCSound(w: World, s: State, qc: Certificate)
    requires Sound(w, s) && SaveAllowed(qc)
    ensures Sound(w, SavedQC(w, s, qc)) && Chain(SavedQC(w, s, qc)) == Chain(s)
    ensures SavedQC(w, s, qc).head == s.head.(qcHash := SavedQC(w, s, qc).head.qcHash)
  {
    hide SavedQC, ValidCertificate, IndexOf, Linked, TransactionsUnique;
    var u := SavedQC(w, s, qc);
    QCRowsValid(w, s, qc);
    StoreFrame(w, s.tables, u.tables);
    ChainFrame(w, s.tables, u.tables, Chain(s));
    QCMemory(w, s, qc, Chain(s));
    ChainIsUnique(w, u, Chain(s));
  }

  lemma QCRowsValid(w: World, s: State, qc: Certificate)
    requires SaveAllowed(qc)
    ensures var u := SavedQC(w, s, qc);
            && u.tables.blocks == s.tables.blocks && u.tables.snapshots == s.tables.snapshots
            && u.tables.indexes == s.tables.indexes && u.head == s.head.(qcHash := u.head.qcHash)
    ensures RowsFrom(s.tables.qcByBlock, SavedQC(w, s, qc).tables.qcByBlock)
  {
    hide ShouldPromote, BestQC, WithQC, ValidCertificate, RowsFrom;
    WithQCRows(w, s.tables, qc);
    NewRow(s.tables.qcByBlock, qc);
  }

  /** Every row is an old one or holds a valid certificate. */
  ghost predicate RowsFrom(rows: map<Hash, Certificate>, next: map<Hash, Certificate>) {
    forall h :: h in next ==> (h in rows && next[h] == rows[h]) || ValidCertificate(next[h])
  }

  lemma NewRow(rows: map<Hash, Certificate>, qc: Certificate)
    requires ValidCertificate(qc)
    ensures RowsFrom(rows, rows) && RowsFrom(rows, rows[qc.hash := qc])
  {
    hide ValidCertificate;
  }

  lemma WithQCRows(w: World, t: Tables, qc: Certificate)
    ensures var u := WithQC(w, t, qc);
            && u.blocks == t.blocks && u.snapshots == t.snapshots && u.indexes == t.indexes
            && u.accounts == t.accounts && u.head == t.head
    ensures WithQC(w, t, qc).qcByBlock == if Improves(w, t, qc) then t.qcByBlock[qc.hash := qc] else t.qcByBlock
  {
    hide Improves;
  }

  lemma QCMemory(w: World, s: State, qc: Certificate, chain: seq<Stored>)
    requires MemorySound(w, s, chain) && FinalitySound(s)
    ensures MemorySound(w, SavedQC(w, s, qc), chain) && FinalitySound(SavedQC(w, s, qc))
  {
    hide ShouldPromote, BestQC, WithQC, MemorySound;
    HeadIsStored(w, s, chain);
    WithQCRows(w, s.tables, qc);
    MemoryFrame(w, s, SavedQC(w, s, qc), chain);
  }

  /** When a save changes the head's certificate, the new one certifies a main-chain block, can be found
      under its hash, and is at least as high as the main-chain certificate it replaces. */
  lemma PromotedQC(w: World, s: State, qc: Certificate)
    requires Sound(w, s) && SaveAllowed(qc) && SavedQC(w, s, qc).head != s.head
    ensures var u := SavedQC(w, s, qc); var h := u.head.qcHash;
            && h in u.tables.qcByHash && OnMainChain(u.tables, u.head, u.tables.qcByHash[h])
            && (s.head.qcHash != ZERO_HASH && s.head.qcHash in s.tables.qcByHash
                && OnMainChain(s.tables, s.head, s.tables.qcByHash[s.head.qcHash]) ==>
                  u.tables.qcByHash[h].height >= s.tables.qcByHash[s.head.qcHash].height)
  {
  }

  /** A block's certificate is only ever replaced by a better one. */
  lemma BlockQCImproves(w: World, s: State, qc: Certificate, h: Hash)
    requires SaveAllowed(qc) && h in s.tables.qcByBlock
    ensures var u := SavedQC(w, s, qc).tables;
            h in u.qcByBlock && (u.qcByBlock[h] == s.tables.qcByBlock[h] || BetterRewardQC(w, u.qcByBlock[h], s.tables.qcByBlock[h]))
  {
    hide ShouldPromote, BestQC, WithQC, BetterRewardQC, ValidCertificate;
    WithQCRows(w, s.tables, qc);
    assert SavedQC(w, s, qc).tables.qcByBlock == WithQC(w, s.tables, qc).qcByBlock;
    assert qc.hash != ZERO_HASH by {
      ValidHash(qc);
    }
  }

  lemma ValidHash(qc: Certificate)
    requires ValidCertificate(qc)
    ensures qc.hash != ZERO_HASH
  {
  }
}
