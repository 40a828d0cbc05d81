/** Dividing a validator's payout among its own stake and its delegations. */
module StakePayout {

  import opened Arithmetic
  import opened ChainState
  import opened Uint64
  import opened Wrappers

  const BASIS_POINTS := 10000
  const MINIMUM_STAKE: Word := 10_000_000

  type BasisPoints = x: nat | x <= 10000

  datatype Status = Active | Jailed | Exiting

  datatype Delegation = Delegation(account: Address, active: Word, pending: Word, unlocking: Word, reward: Word)

  datatype StakeState = StakeState(
    validatorId: nat,
    staker: Address,
    status: Status,
    active: Word,
    pending: Word,
    unlocking: Word,
    delegations: seq<Delegation>,
    commissionBps: BasisPoints,
    commissionReward: Word,
    selfReward: Word,
    totalReward: Word,
    voteCredits: Word,
    missedVotes: Word,
    missedProposals: Word,
    lastRewardEpoch: nat,
    lastRewardedSlot: nat,
    lastVoteSlot: nat,
    lastSlashedSlot: nat,
    jailUntilEpoch: nat,
    unlockEpoch: nat,
    lastEffectiveStake: nat)

  // ----- Shares -----

  /** A part of the pool, rounded down; never more than the pool. */
  function Fraction(pool: nat, weight: nat, total: nat): (r: nat)
    requires 0 < total
    ensures weight <= total ==> r <= pool
  {
    var product := pool * weight;
    FloorBracket(product, total);
    if weight <= total then ProrateFits(pool, weight, total); product / total else product / total
  }

  /** The exact share, rounded down. */
  function Prorate(pool: Word, weight: Word, total: Word): Word {
    if pool == 0 || weight == 0 || total == 0 then 0 else Wrap(Fraction(pool, weight, total))
  }

  /** The share as computed before and after exact payouts were activated: the old arithmetic wraps. */
  function Share(pool: Word, weight: Word, total: Word, exact: bool): Word
    requires total > 0
  {
    if exact then Prorate(pool, weight, total)
    else
      FloorShrinks(WrapMul(pool, weight), total);
      WrapMul(pool, weight) / total
  }

  /** A part of the pool is not more than the pool. */
  lemma ProrateFits(pool: nat, weight: nat, total: nat)
    requires 0 < total && weight <= total
    ensures pool * weight / total <= pool
  {
    FloorBracket(pool * weight, total);
    MulMonotone(weight, total, pool);
    CancelFactor(pool * weight / total, pool, total);
  }

  lemma ExactBounds(pool: Word, weight: Word, total: Word)
    requires 0 < total && weight <= total
    ensures Prorate(pool, weight, total) * total <= pool * weight < Prorate(pool, weight, total) * total + total
  {
    if pool == 0 || weight == 0 {
      assert pool * weight == 0;
    } else {
      FloorBracket(pool * weight, total);
      ProrateFits(pool, weight, total);
    }
  }

  /** Either way a share is at most its exact fraction; the exact one is short by less than one lamport. */
  lemma ShareBounds(pool: Word, weight: Word, total: Word, exact: bool)
    requires 0 < total && weight <= total
    ensures Share(pool, weight, total, exact) * total <= pool * weight
    ensures exact ==> pool * weight < Share(pool, weight, total, exact) * total + total
  {
    if exact {
      ExactBounds(pool, weight, total);
    } else {
      var product := WrapMul(pool, weight);
      assert product <= pool * weight;
      FloorBracket(product, total);
    }
  }

  // ----- Own stake -----

  function Delegated(ds: seq<Delegation>): nat {
    if ds == [] then 0 else Delegated(ds[..|ds| - 1]) + ds[|ds| - 1].active
  }

  /** What is left of the active stake after the delegations; absent when they exceed it. */
  function SelfActive(st: StakeState): Option<Word> {
    if Delegated(st.delegations) > st.active then None else Some(st.active - Delegated(st.delegations))
  }

  lemma {:induction false} DelegatedGrows(ds: seq<Delegation>, n: nat)
    requires n <= |ds|
    ensures Delegated(ds[..n]) <= Delegated(ds)
    decreases |ds|
  {
    if n == |ds| {
      assert ds[..n] == ds;
    } else {
      assert ds[..|ds| - 1][..n] == ds[..n];
      DelegatedGrows(ds[..|ds| - 1], n);
    }
  }

  method SelfActiveStake(st: StakeState) returns (r: Option<Word>)
    ensures r == SelfActive(st)
  {
    var sum: Word := 0;
    for i := 0 to |st.delegations|
      invariant sum == Delegated(st.delegations[..i])
    {
      assert st.delegations[..i + 1][..i] == st.delegations[..i];
      DelegatedGrows(st.delegations, i + 1);
      if MAX - sum < st.delegations[i].active {
        return None;
      }
      sum := sum + st.delegations[i].active;
    }
    assert st.delegations[..|st.delegations|] == st.delegations;
    return if sum > st.active then None else Some(st.active - sum);
  }

  // ----- The list of payouts -----

  /** A payment to the staker (`delegator` absent) or to one of the delegations. */
  datatype Payout = Payout(delegator: Option<nat>, lamports: Word)

  function Paid(ps: seq<Payout>): nat {
    if ps == [] then 0 else Paid(ps[..|ps| - 1]) + ps[|ps| - 1].lamports
  }

  lemma {:induction false} PaidSum(ps: seq<Payout>, qs: seq<Payout>)
    ensures Paid(ps + qs) == Paid(ps) + Paid(qs)
  {
    if qs == [] {
      assert ps + qs == ps;
    } else {
      assert (ps + qs)[..|ps + qs| - 1] == ps + qs[..|qs| - 1];
      PaidSum(ps, qs[..|qs| - 1]);
    }
  }

  lemma PaidOne(p: Payout)
    ensures Paid([p]) == p.lamports
  {
    assert [p][..0] == [];
  }

  function SelfPayouts(st: StakeState, pool: Word, self: Word, exact: bool): seq<Payout>
    requires st.active > 0
  {
    var share := Share(pool, self, st.active, exact);
    if share > 0 then [Payout(None, share)] else []
  }

  /** The positive shares of the first `n` delegations. */
  function DelegatorPayouts(st: StakeState, pool: Word, exact: bool, n: nat): seq<Payout>
    requires st.active > 0 && n <= |st.delegations|
  {
    if n == 0 then []
    else
      var share := Share(pool, st.delegations[n - 1].active, st.active, exact);
      DelegatorPayouts(st, pool, exact, n - 1)
      + if st.delegations[n - 1].active > 0 && share > 0 then [Payout(Some(n - 1), share)] else []
  }

  /** The last of the first `n` delegations that has active stake. */
  function LastActive(ds: seq<Delegation>, n: nat): Option<nat>
    requires n <= |ds|
  {
    if n == 0 then None else if ds[n - 1].active > 0 then Some(n - 1) else LastActive(ds, n - 1)
  }

  function Shares(st: StakeState, pool: Word, self: Word, exact: bool): seq<Payout>
    requires st.active > 0
  {
    SelfPayouts(st, pool, self, exact) + DelegatorPayouts(st, pool, exact, |st.delegations|)
  }

  /** Who gets what rounding leaves over: the staker if it has stake, else the last active delegation. */
  function Heir(st: StakeState, self: Word): Option<Option<nat>> {
    if self > 0 then Some(None)
    else
      var last := LastActive(st.delegations, |st.delegations|);
      if last.None? then None else Some(last)
  }

  /** All payments of one payout, in the order they are made; absent when own stake is negative. */
  function Payouts(st: StakeState, pool: Word, exact: bool): Option<seq<Payout>> {
    if pool == 0 || st.active == 0 then Some([])
    else if SelfActive(st).None? then None
    else
      var self := SelfActive(st).value;
      var shares := Shares(st, pool, self, exact);
      if Paid(shares) >= pool || Heir(st, self).None? then Some(shares)
      else Some(shares + [Payout(Heir(st, self).value, pool - Paid(shares))])
  }

  // ----- The payout is exact -----

  function ActiveCount(ds: seq<Delegation>): nat {
    if ds == [] then 0 else ActiveCount(ds[..|ds| - 1]) + if ds[|ds| - 1].active > 0 then 1 else 0
  }

  /** The weight of one delegation is within the total. */
  lemma DelegationFits(ds: seq<Delegation>, n: nat)
    requires 0 < n <= |ds|
    ensures Delegated(ds[..n]) == Delegated(ds[..n - 1]) + ds[n - 1].active <= Delegated(ds)
    ensures ActiveCount(ds[..n]) == ActiveCount(ds[..n - 1]) + if ds[n - 1].active > 0 then 1 else 0
  {
    assert ds[..n][..n - 1] == ds[..n - 1];
    DelegatedGrows(ds, n);
  }

  function DelegatorShare(st: StakeState, pool: Word, exact: bool, i: nat): Word
    requires st.active > 0 && i < |st.delegations|
  {
    if st.delegations[i].active > 0 then Share(pool, st.delegations[i].active, st.active, exact) else 0
  }

  lemma DelegatorShareBounds(st: StakeState, pool: Word, exact: bool, i: nat)
    requires st.active > 0 && i < |st.delegations| && st.delegations[i].active <= st.active
    ensures DelegatorShare(st, pool, exact, i) * st.active <= pool * st.delegations[i].active
  {
    hide Share;
    if st.delegations[i].active > 0 {
      ShareBounds(pool, st.delegations[i].active, st.active, exact);
    }
  }

  lemma DelegatorPaid(st: StakeState, pool: Word, exact: bool, n: nat)
    requires 0 < st.active && 0 < n <= |st.delegations|
    ensures Paid(DelegatorPayouts(st, pool, exact, n)) ==
            Paid(DelegatorPayouts(st, pool, exact, n - 1)) + DelegatorShare(st, pool, exact, n - 1)
  {
    hide Share;
    var share := DelegatorShare(st, pool, exact, n - 1);
    var more := if share > 0 then [Payout(Some(n - 1), share)] else [];
    PaidSum(DelegatorPayouts(st, pool, exact, n - 1), more);
    if share > 0 {
      PaidOne(Payout(Some(n - 1), share));
    }
  }

  lemma WithinStep(pool: nat, before: nat, w: nat, paid: nat, share: nat, total: nat)
    requires paid * total <= pool * before && share * total <= pool * w
    ensures (paid + share) * total <= pool * (before + w)
  {
    Distribute(paid, share, total);
    Distribute(before, w, pool);
  }

  /** The delegators' shares stay below their fraction of the pool. */
  lemma {:induction false} DelegatorsWithin(st: StakeState, pool: Word, exact: bool, n: nat)
    requires 0 < st.active && n <= |st.delegations| && Delegated(st.delegations) <= st.active
    ensures Paid(DelegatorPayouts(st, pool, exact, n)) * st.active <= pool * Delegated(st.delegations[..n])
  {
    hide Share, DelegatorShare, DelegatorPayouts, Paid, Delegated, ActiveCount;
    if n == 0 {
      NoDelegators(st, pool, exact);
    } else {
      var w, share := st.delegations[n - 1].active, DelegatorShare(st, pool, exact, n - 1);
      DelegatorsWithin(st, pool, exact, n - 1);
      DelegationFits(st.delegations, n);
      DelegatorPaid(st, pool, exact, n);
      DelegatorShareBounds(st, pool, exact, n - 1);
      WithinStep(pool, Delegated(st.delegations[..n - 1]), w, Paid(DelegatorPayouts(st, pool, exact, n - 1)), share, st.active);
    }
  }

  lemma CloseStep(pool: nat, before: nat, w: nat, paid: nat, count: nat, share: nat, total: nat)
    requires pool * before <= (paid + count) * total && pool * w < share * total + total
    ensures pool * (before + w) < (paid + share + (count + 1)) * total
  {
    Distribute(before, w, pool);
    Distribute(share, 1, total);
    Distribute(paid + count, share + 1, total);
    assert paid + count + (share + 1) == paid + share + (count + 1);
  }

  /** In exact arithmetic each of them loses less than one lamport. */
  lemma {:induction false} DelegatorsClose(st: StakeState, pool: Word, n: nat)
    requires 0 < st.active && n <= |st.delegations| && Delegated(st.delegations) <= st.active
    ensures var paid, count := Paid(DelegatorPayouts(st, pool, true, n)), ActiveCount(st.delegations[..n]);
            && pool * Delegated(st.delegations[..n]) <= (paid + count) * st.active
            && (count > 0 ==> pool * Delegated(st.delegations[..n]) < (paid + count) * st.active)
  {
    hide Share, DelegatorPayouts, Paid, Delegated, ActiveCount;
    if n == 0 {
      NoDelegators(st, pool, true);
    } else {
      var w, share := st.delegations[n - 1].active, DelegatorShare(st, pool, true, n - 1);
      var before, count := Delegated(st.delegations[..n - 1]), ActiveCount(st.delegations[..n - 1]);
      DelegatorsClose(st, pool, n - 1);
      DelegationFits(st.delegations, n);
      DelegatorPaid(st, pool, true, n);
      if w > 0 {
        ShareBounds(pool, w, st.active, true);
        CloseStep(pool, before, w, Paid(DelegatorPayouts(st, pool, true, n - 1)), count, share, st.active);
      }
    }
  }

  lemma NoDelegators(st: StakeState, pool: Word, exact: bool)
    requires 0 < st.active
    ensures Paid(DelegatorPayouts(st, pool, exact, 0)) == 0 && ActiveCount(st.delegations[..0]) == 0
    ensures Delegated(st.delegations[..0]) == 0 && pool * Delegated(st.delegations[..0]) == 0
  {
  }

  /** The number of stakers with a positive weight. */
  function StakerCount(st: StakeState, self: Word): nat {
    ActiveCount(st.delegations) + if self > 0 then 1 else 0
  }

  lemma SharesPaid(st: StakeState, pool: Word, self: Word, exact: bool)
    requires 0 < st.active
    ensures Paid(Shares(st, pool, self, exact)) ==
            Share(pool, self, st.active, exact) + Paid(DelegatorPayouts(st, pool, exact, |st.delegations|))
  {
    hide Share;
    PaidSum(SelfPayouts(st, pool, self, exact), DelegatorPayouts(st, pool, exact, |st.delegations|));
    if Share(pool, self, st.active, exact) > 0 {
      PaidOne(Payout(None, Share(pool, self, st.active, exact)));
    }
  }

  /** Rounding and wrapping never overpay. */
  lemma SharesWithin(st: StakeState, pool: Word, self: Word, exact: bool)
    requires 0 < st.active && SelfActive(st) == Some(self)
    ensures Paid(Shares(st, pool, self, exact)) <= pool
  {
    hide Share, Shares;
    var ds := st.delegations;
    assert ds[..|ds|] == ds;
    DelegatorsWithin(st, pool, exact, |ds|);
    ShareBounds(pool, self, st.active, exact);
    SharesPaid(st, pool, self, exact);
    Distribute(Share(pool, self, st.active, exact), Paid(DelegatorPayouts(st, pool, exact, |ds|)), st.active);
    Distribute(self, Delegated(ds), pool);
    CancelFactor(Paid(Shares(st, pool, self, exact)), pool, st.active);
  }

  lemma SharesClose(st: StakeState, pool: Word, self: Word)
    requires 0 < st.active && SelfActive(st) == Some(self)
    ensures pool < Paid(Shares(st, pool, self, true)) + StakerCount(st, self)
  {
    hide Share, Shares;
    var ds := st.delegations;
    assert ds[..|ds|] == ds;
    var share: nat := Share(pool, self, st.active, true);
    var others, count := Paid(DelegatorPayouts(st, pool, true, |ds|)), ActiveCount(ds);
    DelegatorsClose(st, pool, |ds|);
    NoStakerNoStake(ds);
    SharesPaid(st, pool, self, true);
    ShareBounds(pool, self, st.active, true);
    Distribute(self, Delegated(ds), pool);
    if self > 0 {
      Distribute(share, 1, st.active);
      Distribute(share + 1, others + count, st.active);
      CancelStrict(pool, share + 1 + (others + count), st.active);
    } else {
      assert pool * self == 0;
      MulMonotone(others + count, share + (others + count), st.active);
      CancelStrict(pool, share + (others + count), st.active);
    }
  }

  lemma {:induction false} NoStakerNoStake(ds: seq<Delegation>)
    ensures ActiveCount(ds) == 0 ==> Delegated(ds) == 0
    ensures Delegated(ds) > 0 ==> LastActive(ds, |ds|).Some?
  {
    if ds != [] {
      var front := ds[..|ds| - 1];
      NoStakerNoStake(front);
      LastActivePrefix(ds, |ds| - 1, |ds| - 1);
    }
  }

  lemma {:induction false} LastActivePrefix(ds: seq<Delegation>, m: nat, n: nat)
    requires n <= m <= |ds|
    ensures LastActive(ds[..m], n) == LastActive(ds, n)
  {
    if n > 0 {
      LastActivePrefix(ds, m, n - 1);
    }
  }

  /** The payout is exact: whenever a validator has active stake and its delegations do not exceed it,
      the payments add up to the pool, in exact and in wrapping arithmetic alike; rounding leaves over
      less than one lamport per staker in exact arithmetic. */
  lemma PayoutIsExact(st: StakeState, pool: Word, exact: bool)
    requires st.active > 0 && SelfActive(st).Some?
    ensures Payouts(st, pool, exact).Some? && Paid(Payouts(st, pool, exact).value) == pool
    ensures exact ==> pool - Paid(Shares(st, pool, SelfActive(st).value, exact)) < StakerCount(st, SelfActive(st).value)
  {
    var self := SelfActive(st).value;
    SharesWithin(st, pool, self, exact);
    if exact {
      SharesClose(st, pool, self);
    }
    NoStakerNoStake(st.delegations);
    var shares := Shares(st, pool, self, exact);
    if pool > 0 && Paid(shares) < pool {
      var last := Payout(Heir(st, self).value, pool - Paid(shares));
      PaidSum(shares, [last]);
      PaidOne(last);
    }
  }
}
