/** Who gets what of a stake payout: every address, the staker's counter and every delegation's counter. */
module PayoutRecipients {

  import opened ChainState
  import opened RewardRun
  import opened Rewards
  import opened StakePayout
  import opened SupplyAccounting
  import opened Uint64
  import opened Wrappers

  // ----- What each receiver is due -----

  /** The staker (`None`) or one of the delegations. */
  type Receiver = Option<nat>

  predicate IsReceiver(st: StakeState, r: Receiver) {
    r.Some? ==> r.value < |st.delegations|
  }

  function StakeOf(st: StakeState, r: Receiver): nat
    requires IsReceiver(st, r) && Delegated(st.delegations) <= st.active
  {
    if r.None? then st.active - Delegated(st.delegations) else st.delegations[r.value].active
  }

  function AccountOf(st: StakeState, r: Receiver): Address
    requires IsReceiver(st, r)
  {
    if r.None? then st.staker else st.delegations[r.value].account
  }

  /** The proportional part, rounded down; before exact payouts the product wraps at 64 bits. */
  function Part(pool: nat, stake: nat, active: nat, exact: bool): nat
    requires active > 0
  {
    if exact then pool * stake / active else pool * stake % 0x1_0000_0000_0000_0000 / active
  }

  function DelegatedParts(st: StakeState, pool: nat, exact: bool, n: nat): nat
    requires st.active > 0 && n <= |st.delegations|
  {
    if n == 0 then 0 else DelegatedParts(st, pool, exact, n - 1) + Part(pool, st.delegations[n - 1].active, st.active, exact)
  }

  /** What rounding leaves over. */
  function Rest(st: StakeState, pool: nat, exact: bool): int
    requires st.active > 0 && Delegated(st.delegations) <= st.active
  {
    pool - Part(pool, StakeOf(st, None), st.active, exact) - DelegatedParts(st, pool, exact, |st.delegations|)
  }

  /** Who gets the rest: the staker if it has stake of its own, otherwise the last delegation that has any. */
  ghost predicate IsHeir(st: StakeState, r: Receiver)
    requires IsReceiver(st, r) && Delegated(st.delegations) <= st.active
  {
    && StakeOf(st, r) > 0
    && (r.Some? ==> StakeOf(st, None) == 0 && forall j :: r.value < j < |st.delegations| ==> st.delegations[j].active == 0)
  }

  ghost function Due(st: StakeState, pool: nat, exact: bool, r: Receiver): int
    requires st.active > 0 && IsReceiver(st, r) && Delegated(st.delegations) <= st.active
  {
    Part(pool, StakeOf(st, r), st.active, exact) + if IsHeir(st, r) then Rest(st, pool, exact) else 0
  }

  /** What an address is due: as the staker, and as the account of any delegations. */
  ghost function DueAt(st: StakeState, pool: nat, exact: bool, a: Address): int
    requires st.active > 0 && Delegated(st.delegations) <= st.active
  {
    (if st.staker == a then Due(st, pool, exact, None) else 0) + DueAsDelegator(st, pool, exact, a, |st.delegations|)
  }

  ghost function DueAsDelegator(st: StakeState, pool: nat, exact: bool, a: Address, n: nat): int
    requires st.active > 0 && Delegated(st.delegations) <= st.active && n <= |st.delegations|
  {
    if n == 0 then 0
    else
      DueAsDelegator(st, pool, exact, a, n - 1) +
      if st.delegations[n - 1].account == a then Due(st, pool, exact, Some(n - 1)) else 0
  }

  // ----- The list of payouts gives each receiver its due -----

  function Received(ps: seq<Payout>, r: Receiver): nat {
    if ps == [] then 0
    else Received(ps[..|ps| - 1], r) + if ps[|ps| - 1].delegator == r then ps[|ps| - 1].lamports else 0
  }

  lemma {:induction false} ReceivedSum(ps: seq<Payout>, qs: seq<Payout>, r: Receiver)
    ensures Received(ps + qs, r) == Received(ps, r) + Received(qs, r)
  {
    if qs == [] {
      assert ps + qs == ps;
    } else {
      assert (ps + qs)[..|ps + qs| - 1] == ps + qs[..|qs| - 1];
      ReceivedSum(ps, qs[..|qs| - 1], r);
    }
  }

  lemma ReceivedOne(p: Payout, r: Receiver)
    ensures Received([p], r) == if p.delegator == r then p.lamports else 0
  {
    assert [p][..0] == [];
    assert Received([p][..0], r) == 0;
  }

  lemma ShareIsPart(pool: Word, stake: Word, active: Word, exact: bool)
    requires 0 < active && stake <= active
    ensures Share(pool, stake, active, exact) == Part(pool, stake, active, exact)
  {
    if exact {
      ProrateFits(pool, stake, active);
      if pool == 0 || stake == 0 {
        assert pool * stake == 0;
      }
    }
  }

  lemma DelegationWithin(st: StakeState, i: nat)
    requires i < |st.delegations| && Delegated(st.delegations) <= st.active
    ensures st.delegations[i].active <= st.active
  {
    DelegationFits(st.delegations, i + 1);
  }

  /** What one delegation adds to the list. */
  lemma OneDelegator(st: StakeState, pool: Word, exact: bool, n: nat, r: Receiver)
    requires st.active > 0 && 0 < n <= |st.delegations| && Delegated(st.delegations) <= st.active
    ensures Received(DelegatorPayouts(st, pool, exact, n), r) ==
            Received(DelegatorPayouts(st, pool, exact, n - 1), r) +
            if r == Some(n - 1) then Part(pool, st.delegations[n - 1].active, st.active, exact) else 0
  {
    hide Share, Part, Received, Delegated;
    var i := n - 1;
    var d := st.delegations[i];
    DelegationWithin(st, i);
    ShareIsPart(pool, d.active, st.active, exact);
    NoStakeNoPart(pool, st.active, exact);
    var share := Share(pool, d.active, st.active, exact);
    if d.active > 0 && share > 0 {
      ReceivedSum(DelegatorPayouts(st, pool, exact, i), [Payout(Some(i), share)], r);
      ReceivedOne(Payout(Some(i), share), r);
    } else {
      assert DelegatorPayouts(st, pool, exact, n) == DelegatorPayouts(st, pool, exact, i);
    }
  }

  lemma {:induction false} DelegatorsReceive(st: StakeState, pool: Word, exact: bool, n: nat, r: Receiver)
    requires st.active > 0 && n <= |st.delegations| && Delegated(st.delegations) <= st.active
    ensures Received(DelegatorPayouts(st, pool, exact, n), r) ==
            if r.Some? && r.value < n then Part(pool, st.delegations[r.value].active, st.active, exact) else 0
  {
    hide Share, Part, Delegated;
    if n > 0 {
      hide DelegatorPayouts, Received;
      DelegatorsReceive(st, pool, exact, n - 1, r);
      OneDelegator(st, pool, exact, n, r);
    }
  }

  lemma NoStakeNoPart(pool: nat, active: nat, exact: bool)
    requires active > 0
    ensures Part(pool, 0, active, exact) == 0
  {
    assert pool * 0 == 0;
  }

  lemma {:induction false} DelegatorsPaidParts(st: StakeState, pool: Word, exact: bool, n: nat)
    requires st.active > 0 && n <= |st.delegations| && Delegated(st.delegations) <= st.active
    ensures Paid(DelegatorPayouts(st, pool, exact, n)) == DelegatedParts(st, pool, exact, n)
  {
    hide Share, Part, Delegated;
    if n > 0 {
      hide DelegatorPayouts, Paid;
      DelegatorsPaidParts(st, pool, exact, n - 1);
      DelegatorPaid(st, pool, exact, n);
      DelegationWithin(st, n - 1);
      ShareIsPart(pool, st.delegations[n - 1].active, st.active, exact);
      NoStakeNoPart(pool, st.active, exact);
    }
  }

  lemma SharesReceive(st: StakeState, pool: Word, exact: bool, r: Receiver)
    requires st.active > 0 && IsReceiver(st, r) && Delegated(st.delegations) <= st.active
    ensures var self := st.active - Delegated(st.delegations);
            && Received(Shares(st, pool, self, exact), r) == Part(pool, StakeOf(st, r), st.active, exact)
            && Paid(Shares(st, pool, self, exact)) == pool - Rest(st, pool, exact) <= pool
  {
    hide Share, Part, DelegatorPayouts, DelegatedParts;
    var self, n := st.active - Delegated(st.delegations), |st.delegations|;
    var share := Share(pool, self, st.active, exact);
    ShareIsPart(pool, self, st.active, exact);
    ReceivedSum(SelfPayouts(st, pool, self, exact), DelegatorPayouts(st, pool, exact, n), r);
    ReceivedOne(Payout(None, share), r);
    DelegatorsReceive(st, pool, exact, n, r);
    SharesPaid(st, pool, self, exact);
    DelegatorsPaidParts(st, pool, exact, n);
    SharesWithin(st, pool, self, exact);
  }

  lemma {:induction false} LastActiveIs(ds: seq<Delegation>, n: nat)
    requires n <= |ds|
    ensures var last := LastActive(ds, n);
            if last.Some? then
              last.value < n && ds[last.value].active > 0 && forall j :: last.value < j < n ==> ds[j].active == 0
            else forall j :: 0 <= j < n ==> ds[j].active == 0
  {
    if n > 0 {
      LastActiveIs(ds, n - 1);
    }
  }

  lemma HeirIs(st: StakeState, r: Receiver)
    requires st.active > 0 && IsReceiver(st, r) && Delegated(st.delegations) <= st.active
    ensures var heir := Heir(st, st.active - Delegated(st.delegations));
            heir.Some? && (IsHeir(st, r) <==> heir.value == r)
  {
    hide LastActive, Delegated;
    LastActiveIs(st.delegations, |st.delegations|);
    NoStakerNoStake(st.delegations);
  }

  /** The payouts of a pool give every receiver exactly its due. */
  lemma PayoutsReceive(st: StakeState, pool: Word, exact: bool, r: Receiver)
    requires st.active > 0 && pool > 0 && IsReceiver(st, r) && Payouts(st, pool, exact).Some?
    ensures Delegated(st.delegations) <= st.active
    ensures Received(Payouts(st, pool, exact).value, r) == Due(st, pool, exact, r)
  {
    hide Shares, Part, Heir, IsHeir, Rest, Received, Delegated, Paid, StakeOf;
    var self := SelfActive(st).value;
    var shares := Shares(st, pool, self, exact);
    SharesReceive(st, pool, exact, r);
    HeirIs(st, r);
    if Paid(shares) < pool {
      var last := Payout(Heir(st, self).value, pool - Paid(shares));
      ReceivedSum(shares, [last], r);
      ReceivedOne(last, r);
    }
  }

  ghost predicate ToReceivers(st: StakeState, ps: seq<Payout>) {
    forall k :: 0 <= k < |ps| ==> IsReceiver(st, ps[k].delegator)
  }

  lemma {:induction false} DelegatorPayoutsValid(st: StakeState, pool: Word, exact: bool, n: nat)
    requires st.active > 0 && n <= |st.delegations|
    ensures ToReceivers(st, DelegatorPayouts(st, pool, exact, n))
  {
    hide Share;
    if n > 0 {
      DelegatorPayoutsValid(st, pool, exact, n - 1);
    }
  }

  lemma PayoutsValid(st: StakeState, pool: Word, exact: bool)
    requires Payouts(st, pool, exact).Some?
    ensures ToReceivers(st, Payouts(st, pool, exact).value)
  {
    hide Share, Paid, Delegated, LastActive, DelegatorPayouts;
    if pool > 0 && st.active > 0 {
      DelegatorPayoutsValid(st, pool, exact, |st.delegations|);
      LastActiveIs(st.delegations, |st.delegations|);
    }
  }

  // ----- Paying the list -----

  /** The states differ in nothing but reward counters. */
  predicate SameButRewards(st: StakeState, su: StakeState) {
    && su == st.(selfReward := su.selfReward, delegations := su.delegations)
    && |su.delegations| == |st.delegations|
    && forall i :: 0 <= i < |st.delegations| ==> su.delegations[i] == st.delegations[i].(reward := su.delegations[i].reward)
  }

  function CounterOf(st: StakeState, r: Receiver): nat
    requires IsReceiver(st, r)
  {
    if r.None? then st.selfReward else st.delegations[r.value].reward
  }

  lemma PayCounts(env: Env, index: Index, input: Input, owner: Address, credits: nat, h: Held, p: Payout, r: Receiver)
    requires Pay(env, index, input, owner, credits, h, p).Some? && IsReceiver(h.stake, p.delegator) && IsReceiver(h.stake, r)
    ensures var after := Pay(env, index, input, owner, credits, h, p).value;
            && SameButRewards(h.stake, after.stake)
            && CounterOf(after.stake, r) == CounterOf(h.stake, r) + if p.delegator == r then p.lamports else 0
  {
    hide CreditAccount, Credited;
  }

  lemma PayRecords(env: Env, index: Index, input: Input, owner: Address, credits: nat, h: Held, p: Payout, a: Address)
    requires Pay(env, index, input, owner, credits, h, p).Some? && IsReceiver(h.stake, p.delegator)
    ensures PaidTo(Pay(env, index, input, owner, credits, h, p).value.book.rewards, a) ==
            PaidTo(h.book.rewards, a) + if AccountOf(h.stake, p.delegator) == a then p.lamports else 0
  {
    hide Credited, Counted, PaidTo, ValidWithRent;
    var to := Destination(h.stake, p);
    RecordAppended(h.book.rewards, Reward(VotePayout, h.stake.validatorId, to, h.stake.staker, input.epoch, input.slot, p.lamports, credits));
  }

  lemma {:induction false} PayAllCounts(
    env: Env, index: Index, input: Input, owner: Address, credits: nat, h: Held, ps: seq<Payout>, r: Receiver)
    requires PayAll(env, index, input, owner, credits, h, ps).Some? && ToReceivers(h.stake, ps) && IsReceiver(h.stake, r)
    ensures var after := PayAll(env, index, input, owner, credits, h, ps).value;
            && SameButRewards(h.stake, after.stake)
            && CounterOf(after.stake, r) == CounterOf(h.stake, r) + Received(ps, r)
  {
    hide Pay;
    if ps != [] {
      var n := |ps| - 1;
      var front := PayAll(env, index, input, owner, credits, h, ps[..n]).value;
      PayAllCounts(env, index, input, owner, credits, h, ps[..n], r);
      assert IsReceiver(h.stake, ps[n].delegator);
      PayCounts(env, index, input, owner, credits, front, ps[n], r);
    }
  }

  /** The lamports of a list of payouts that go to an address. */
  function SentTo(st: StakeState, ps: seq<Payout>, a: Address): nat {
    if ps == [] then 0
    else
      var p := ps[|ps| - 1];
      SentTo(st, ps[..|ps| - 1], a) + if IsReceiver(st, p.delegator) && AccountOf(st, p.delegator) == a then p.lamports else 0
  }

  lemma {:induction false} PayAllRecords(
    env: Env, index: Index, input: Input, owner: Address, credits: nat, h: Held, ps: seq<Payout>, a: Address)
    requires PayAll(env, index, input, owner, credits, h, ps).Some? && ToReceivers(h.stake, ps)
    ensures PaidTo(PayAll(env, index, input, owner, credits, h, ps).value.book.rewards, a) ==
            PaidTo(h.book.rewards, a) + SentTo(h.stake, ps, a)
  {
    hide Pay, PaidTo;
    if ps != [] {
      var n := |ps| - 1;
      var front := PayAll(env, index, input, owner, credits, h, ps[..n]).value;
      PayAllRecords(env, index, input, owner, credits, h, ps[..n], a);
      PayAllCounts(env, index, input, owner, credits, h, ps[..n], None);
      assert IsReceiver(h.stake, ps[n].delegator);
      PayRecords(env, index, input, owner, credits, front, ps[n], a);
      assert AccountOf(front.stake, ps[n].delegator) == AccountOf(h.stake, ps[n].delegator);
    }
  }

  /** Lamports received by the first `n` delegations whose account is `a`. */
  function ReceivedAsDelegator(st: StakeState, ps: seq<Payout>, a: Address, n: nat): nat
    requires n <= |st.delegations|
  {
    if n == 0 then 0
    else ReceivedAsDelegator(st, ps, a, n - 1) + if st.delegations[n - 1].account == a then Received(ps, Some(n - 1)) else 0
  }

  lemma {:induction false} OneMoreReceived(st: StakeState, ps: seq<Payout>, p: Payout, a: Address, n: nat)
    requires n <= |st.delegations|
    ensures ReceivedAsDelegator(st, ps + [p], a, n) ==
            ReceivedAsDelegator(st, ps, a, n) +
            if p.delegator.Some? && p.delegator.value < n && st.delegations[p.delegator.value].account == a then p.lamports else 0
  {
    if n > 0 {
      OneMoreReceived(st, ps, p, a, n - 1);
      ReceivedSum(ps, [p], Some(n - 1));
      ReceivedOne(p, Some(n - 1));
    }
  }

  lemma {:induction false} NobodyReceived(st: StakeState, a: Address, n: nat)
    requires n <= |st.delegations|
    ensures ReceivedAsDelegator(st, [], a, n) == 0
  {
    if n > 0 {
      NobodyReceived(st, a, n - 1);
    }
  }

  /** What goes to an address is what its receivers get. */
  lemma {:induction false} SentIsReceived(st: StakeState, ps: seq<Payout>, a: Address)
    requires ToReceivers(st, ps)
    ensures SentTo(st, ps, a) ==
            (if st.staker == a then Received(ps, None) else 0) + ReceivedAsDelegator(st, ps, a, |st.delegations|)
  {
    if ps == [] {
      NobodyReceived(st, a, |st.delegations|);
    } else {
      var n := |ps| - 1;
      var front, p := ps[..n], ps[n];
      assert ps == front + [p] && IsReceiver(st, ps[n].delegator);
      SentIsReceived(st, front, a);
      OneMoreReceived(st, front, p, a, |st.delegations|);
    }
  }

  lemma {:induction false} ReceivedIsDue(st: StakeState, pool: Word, exact: bool, a: Address, n: nat)
    requires st.active > 0 && pool > 0 && Payouts(st, pool, exact).Some? && n <= |st.delegations|
    requires Delegated(st.delegations) <= st.active
    ensures ReceivedAsDelegator(st, Payouts(st, pool, exact).value, a, n) == DueAsDelegator(st, pool, exact, a, n)
  {
    hide Payouts, Due, Received;
    if n > 0 {
      ReceivedIsDue(st, pool, exact, a, n - 1);
      PayoutsReceive(st, pool, exact, Some(n - 1));
    }
  }

  /** Every successful distribution, exact or wrapping: each address is recorded as paid exactly what its receivers are
      due, the staker's counter and each delegation's counter rise by exactly their due, and nothing else of the stake
      state changes. */
  lemma DistributionPaysDue(
    env: Env, index: Index, input: Input, owner: Address, credits: nat, h: Held, pool: Word, a: Address, r: Receiver)
    requires h.stake.active > 0 && pool > 0 && IsReceiver(h.stake, r)
    requires DistributionOf(env, index, input, owner, credits, h, pool).Some?
    ensures Delegated(h.stake.delegations) <= h.stake.active
    ensures var after := DistributionOf(env, index, input, owner, credits, h, pool).value;
            && PaidTo(after.book.rewards, a) == PaidTo(h.book.rewards, a) + DueAt(h.stake, pool, IsExact(input), a)
            && SameButRewards(h.stake, after.stake)
            && CounterOf(after.stake, r) == CounterOf(h.stake, r) + Due(h.stake, pool, IsExact(input), r)
  {
    hide Payouts, PayAll, PaidTo, Due, Received, ReceivedAsDelegator, DueAsDelegator, SameButRewards;
    var st, exact := h.stake, IsExact(input);
    var ps := Payouts(st, pool, exact).value;
    PayoutsValid(st, pool, exact);
    PayAllCounts(env, index, input, owner, credits, h, ps, r);
    PayAllRecords(env, index, input, owner, credits, h, ps, a);
    SentIsReceived(st, ps, a);
    PayoutsReceive(st, pool, exact, r);
    PayoutsReceive(st, pool, exact, None);
    ReceivedIsDue(st, pool, exact, a, |st.delegations|);
  }
}
