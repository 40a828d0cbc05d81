/** Where every lamport went: balances against the reward records that pay and the lamports debited by slashing. */
module SupplyAccounting {

  import opened ChainState

  datatype RewardKind = LeaderFee | VoteCredit | VotePayout | Commission | Slash | Jail | MissedProposal

  datatype Reward = Reward(
    kind: RewardKind,
    validatorId: nat,
    account: Address,
    staker: Address,
    epoch: nat,
    slot: nat,
    lamports: nat,
    credits: nat)

  /** Lamports a slash really took out of an account. */
  datatype Burn = Burn(account: Address, lamports: nat)

  predicate Pays(kind: RewardKind) {
    kind == LeaderFee || kind == Commission || kind == VotePayout
  }

  function PaidTo(rs: seq<Reward>, a: Address): nat {
    if rs == [] then 0
    else
      var last := rs[|rs| - 1];
      PaidTo(rs[..|rs| - 1], a) + if Pays(last.kind) && last.account == a then last.lamports else 0
  }

  function PaidTotal(rs: seq<Reward>): nat {
    if rs == [] then 0
    else PaidTotal(rs[..|rs| - 1]) + if Pays(rs[|rs| - 1].kind) then rs[|rs| - 1].lamports else 0
  }

  /** The lamports the slash records name. */
  function SlashedTotal(rs: seq<Reward>): nat {
    if rs == [] then 0
    else SlashedTotal(rs[..|rs| - 1]) + if rs[|rs| - 1].kind == Slash then rs[|rs| - 1].lamports else 0
  }

  lemma SlashAppended(rs: seq<Reward>, r: Reward)
    ensures SlashedTotal(rs + [r]) == SlashedTotal(rs) + if r.kind == Slash then r.lamports else 0
  {
    assert (rs + [r])[..|rs + [r]| - 1] == rs;
  }

  function BurnedAt(bs: seq<Burn>, a: Address): nat {
    if bs == [] then 0 else BurnedAt(bs[..|bs| - 1], a) + if bs[|bs| - 1].account == a then bs[|bs| - 1].lamports else 0
  }

  function BurnedTotal(bs: seq<Burn>): nat {
    if bs == [] then 0 else BurnedTotal(bs[..|bs| - 1]) + bs[|bs| - 1].lamports
  }

  function Supply(s: seq<Entry>): nat {
    if s == [] then 0 else Supply(s[..|s| - 1]) + s[|s| - 1].account.lamports
  }

  lemma {:induction false} SupplyUpdate(s: seq<Entry>, i: nat, e: Entry)
    requires i < |s|
    ensures Supply(s[i := e]) + s[i].account.lamports == Supply(s) + e.account.lamports
  {
    var n, u := |s| - 1, s[i := e];
    if i == n {
      assert u[..n] == s[..n];
    } else {
      assert u[..n] == s[..n][i := e];
      SupplyUpdate(s[..n], i, e);
    }
  }

  /** Every account holds what it held before plus what records say it was paid less what was burned
      from it, and so does the supply as a whole. */
  ghost predicate Balanced(before: seq<Entry>, after: seq<Entry>, rs: seq<Reward>, bs: seq<Burn>) {
    && |after| == |before|
    && (forall i :: 0 <= i < |after| ==>
          && after[i].address == before[i].address
          && after[i].account.lamports + BurnedAt(bs, after[i].address) ==
             before[i].account.lamports + PaidTo(rs, after[i].address))
    && Supply(after) + BurnedTotal(bs) == Supply(before) + PaidTotal(rs)
  }

  lemma BalancedStart(s: seq<Entry>)
    ensures Balanced(s, s, [], [])
  {
  }

  lemma RecordAppended(rs: seq<Reward>, r: Reward)
    ensures forall a :: PaidTo(rs + [r], a) == PaidTo(rs, a) + if Pays(r.kind) && r.account == a then r.lamports else 0
    ensures PaidTotal(rs + [r]) == PaidTotal(rs) + if Pays(r.kind) then r.lamports else 0
  {
    assert (rs + [r])[..|rs + [r]| - 1] == rs;
  }

  /** A credit with its record. */
  lemma BalancedCredit(before: seq<Entry>, after: seq<Entry>, rs: seq<Reward>, bs: seq<Burn>, i: nat, account: Account, r: Reward)
    requires Unique(before) && Balanced(before, after, rs, bs) && i < |after|
    requires Pays(r.kind) && r.account == after[i].address && account.lamports == after[i].account.lamports + r.lamports
    ensures Balanced(before, after[i := Entry(after[i].address, account)], rs + [r], bs)
  {
    RecordAppended(rs, r);
    SupplyUpdate(after, i, Entry(after[i].address, account));
    assert forall k :: 0 <= k < |after| && k != i ==> after[k].address != after[i].address;
  }

  /** A record that pays nobody. */
  lemma BalancedRecord(before: seq<Entry>, after: seq<Entry>, rs: seq<Reward>, bs: seq<Burn>, r: Reward)
    requires Balanced(before, after, rs, bs) && !Pays(r.kind)
    ensures Balanced(before, after, rs + [r], bs)
  {
    RecordAppended(rs, r);
  }

  /** A change that leaves the lamports alone. */
  lemma BalancedWrite(before: seq<Entry>, after: seq<Entry>, rs: seq<Reward>, bs: seq<Burn>, i: nat, account: Account)
    requires Balanced(before, after, rs, bs) && i < |after| && account.lamports == after[i].account.lamports
    ensures Balanced(before, after[i := Entry(after[i].address, account)], rs, bs)
  {
    SupplyUpdate(after, i, Entry(after[i].address, account));
  }

  lemma BurnAppended(bs: seq<Burn>, b: Burn)
    ensures forall a :: BurnedAt(bs + [b], a) == BurnedAt(bs, a) + if b.account == a then b.lamports else 0
    ensures BurnedTotal(bs + [b]) == BurnedTotal(bs) + b.lamports
  {
    assert (bs + [b])[..|bs + [b]| - 1] == bs;
  }

  lemma BalancedBurn(before: seq<Entry>, after: seq<Entry>, rs: seq<Reward>, bs: seq<Burn>, i: nat, account: Account, burned: nat)
    requires Unique(before) && Balanced(before, after, rs, bs) && i < |after|
    requires account.lamports + burned == after[i].account.lamports
    ensures Balanced(before, after[i := Entry(after[i].address, account)], rs, bs + [Burn(after[i].address, burned)])
  {
    BurnAppended(bs, Burn(after[i].address, burned));
    SupplyUpdate(after, i, Entry(after[i].address, account));
    assert forall k :: 0 <= k < |after| && k != i ==> after[k].address != after[i].address;
  }
}
