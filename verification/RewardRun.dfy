/** The settlement of a rewarded validator as it runs, what it pays, and what the records of a slash say. */
module RewardRun {

  import opened Arithmetic
  import opened Bytes
  import opened ChainState
  import opened Rewards
  import opened StakePayout
  import opened SupplyAccounting
  import opened Uint64
  import opened Wrappers

  // ----- Distributing a payout in a loop -----

  lemma {:induction false} DelegatorPaidGrows(st: StakeState, pool: Word, exact: bool, n: nat, m: nat)
    requires st.active > 0 && n <= m <= |st.delegations|
    ensures Paid(DelegatorPayouts(st, pool, exact, n)) <= Paid(DelegatorPayouts(st, pool, exact, m))
    decreases m
  {
    if n < m {
      DelegatorPaidGrows(st, pool, exact, n, m - 1);
      DelegatorPaid(st, pool, exact, m);
    }
  }

  /** What was handed out at any point of the loop fits the pool. */
  lemma PartialWithin(st: StakeState, pool: Word, self: Word, exact: bool, n: nat)
    requires 0 < st.active && SelfActive(st) == Some(self) && n <= |st.delegations|
    ensures Paid(SelfPayouts(st, pool, self, exact) + DelegatorPayouts(st, pool, exact, n)) <= pool
  {
    hide Share, Paid, DelegatorPayouts, SelfPayouts;
    SharesWithin(st, pool, self, exact);
    DelegatorPaidGrows(st, pool, exact, n, |st.delegations|);
    PaidSum(SelfPayouts(st, pool, self, exact), DelegatorPayouts(st, pool, exact, n));
    PaidSum(SelfPayouts(st, pool, self, exact), DelegatorPayouts(st, pool, exact, |st.delegations|));
  }

  lemma PayOneMore(env: Env, index: Index, input: Input, owner: Address, credits: nat, h: Held, ps: seq<Payout>, p: Payout)
    ensures PayAll(env, index, input, owner, credits, h, ps + [p]) ==
            var front := PayAll(env, index, input, owner, credits, h, ps);
            if front.None? then None else Pay(env, index, input, owner, credits, front.value, p)
    ensures Paid(ps + [p]) == Paid(ps) + p.lamports
  {
    assert (ps + [p])[..|ps + [p]| - 1] == ps;
  }

  /** A failed payment fails every longer list. */
  lemma {:induction false} PayAllFails(
    env: Env, index: Index, input: Input, owner: Address, credits: nat, h: Held, ps: seq<Payout>, qs: seq<Payout>)
    requires PayAll(env, index, input, owner, credits, h, ps).None?
    ensures PayAll(env, index, input, owner, credits, h, ps + qs).None?
  {
    if qs == [] {
      assert ps + qs == ps;
    } else {
      assert (ps + qs)[..|ps + qs| - 1] == ps + qs[..|qs| - 1];
      PayAllFails(env, index, input, owner, credits, h, ps, qs[..|qs| - 1]);
    }
  }

  lemma {:induction false} DelegatorPrefix(st: StakeState, pool: Word, exact: bool, n: nat, m: nat) returns (more: seq<Payout>)
    requires st.active > 0 && n <= m <= |st.delegations|
    ensures DelegatorPayouts(st, pool, exact, m) == DelegatorPayouts(st, pool, exact, n) + more
    decreases m
  {
    hide Share;
    if n == m {
      more := [];
    } else {
      var rest := DelegatorPrefix(st, pool, exact, n, m - 1);
      var last := DelegatorPayouts(st, pool, exact, m)[|DelegatorPayouts(st, pool, exact, m - 1)|..];
      more := rest + last;
      assert DelegatorPayouts(st, pool, exact, n) + rest + last == DelegatorPayouts(st, pool, exact, n) + (rest + last);
    }
  }

  /** If the payments made so far fail, so does the whole payout. */
  lemma PartialFails(env: Env, index: Index, input: Input, owner: Address, credits: nat, h: Held, pool: Word, self: Word, n: nat)
    requires pool > 0 && h.stake.active > 0 && SelfActive(h.stake) == Some(self) && n <= |h.stake.delegations|
    requires PayAll(env, index, input, owner, credits, h,
                    SelfPayouts(h.stake, pool, self, IsExact(input)) + DelegatorPayouts(h.stake, pool, IsExact(input), n)).None?
    ensures PayAll(env, index, input, owner, credits, h, Payouts(h.stake, pool, IsExact(input)).value).None?
  {
    hide Share, SelfPayouts, DelegatorPayouts, PayAll, Paid, Heir;
    var st, exact := h.stake, IsExact(input);
    var more := DelegatorPrefix(st, pool, exact, n, |st.delegations|);
    var done := SelfPayouts(st, pool, self, exact) + DelegatorPayouts(st, pool, exact, n);
    var all := Payouts(st, pool, exact).value;
    var shares := Shares(st, pool, self, exact);
    assert shares == done + more;
    PayAllFails(env, index, input, owner, credits, h, done, more);
    PayAllFails(env, index, input, owner, credits, h, shares, all[|shares|..]);
    assert all == shares + all[|shares|..];
  }

  /** The expected outcome: all payments of the payout, or failure. */
  function DistributionOf(env: Env, index: Index, input: Input, owner: Address, credits: nat, h: Held, pool: Word): Option<Held> {
    var ps := Payouts(h.stake, pool, IsExact(input));
    if ps.None? then None else PayAll(env, index, input, owner, credits, h, ps.value)
  }

  method DistributeStakePayout(env: Env, index: Index, input: Input, owner: Address, credits: nat, h: Held, pool: Word)
    returns (r: Option<Held>)
    ensures r == DistributionOf(env, index, input, owner, credits, h, pool)
  {
    if pool == 0 || h.stake.active == 0 {
      return Some(h);
    }
    var st, exact := h.stake, IsExact(input);
    var self := SelfActiveStake(st);
    if self.None? {
      return None;
    }
    var share := Share(pool, self.value, st.active, exact);
    var held, distributed := h, 0;
    var own := SelfPayouts(st, pool, self.value, exact);
    PayNothing(env, index, input, owner, credits, h);
    if share > 0 {
      var next := Pay(env, index, input, owner, credits, h, Payout(None, share));
      PayOneMore(env, index, input, owner, credits, h, [], Payout(None, share));
      assert [] + [Payout(None, share)] == own;
      if next.None? {
        assert own + DelegatorPayouts(st, pool, exact, 0) == own;
        PartialFails(env, index, input, owner, credits, h, pool, self.value, 0);
        return None;
      }
      held, distributed := next.value, share;
    }
    var paid := PayDelegators(env, index, input, owner, credits, h, pool, self.value, held, distributed);
    if paid.None? {
      return None;
    }
    var (after, total, last) := paid.value;
    r := PayRemainder(env, index, input, owner, credits, h, pool, self.value, after, total, last);
  }

  lemma PayNothing(env: Env, index: Index, input: Input, owner: Address, credits: nat, h: Held)
    ensures PayAll(env, index, input, owner, credits, h, []) == Some(h) && Paid([]) == 0
  {
  }

  /** The loop over the delegations. */
  method PayDelegators(env: Env, index: Index, input: Input, owner: Address, credits: nat, h: Held, pool: Word,
                       self: Word, after: Held, distributed: Word)
    returns (r: Option<(Held, Word, Option<nat>)>)
    requires pool > 0 && h.stake.active > 0 && SelfActive(h.stake) == Some(self)
    requires PayAll(env, index, input, owner, credits, h, SelfPayouts(h.stake, pool, self, IsExact(input))) == Some(after)
    requires Paid(SelfPayouts(h.stake, pool, self, IsExact(input))) == distributed
    ensures r.Some? ==>
              var shares := Shares(h.stake, pool, self, IsExact(input));
              && PayAll(env, index, input, owner, credits, h, shares) == Some(r.value.0)
              && Paid(shares) == r.value.1 && r.value.2 == LastActive(h.stake.delegations, |h.stake.delegations|)
    ensures r.None? ==> PayAll(env, index, input, owner, credits, h, Payouts(h.stake, pool, IsExact(input)).value).None?
  {
    hide Pay, PayAll, Paid, SelfPayouts, Share, Payouts, SelfActive;
    var st, exact := h.stake, IsExact(input);
    ghost var own := SelfPayouts(st, pool, self, exact);
    var held, total, last := after, distributed, None;
    assert own + DelegatorPayouts(st, pool, exact, 0) == own;
    for i := 0 to |st.delegations|
      invariant PayAll(env, index, input, owner, credits, h, own + DelegatorPayouts(st, pool, exact, i)) == Some(held)
      invariant Paid(own + DelegatorPayouts(st, pool, exact, i)) == total
      invariant last == LastActive(st.delegations, i)
    {
      ghost var soFar := DelegatorPayouts(st, pool, exact, i);
      if st.delegations[i].active == 0 {
        assert DelegatorPayouts(st, pool, exact, i + 1) == soFar;
        continue;
      }
      var share := Share(pool, st.delegations[i].active, st.active, exact);
      if share == 0 {
        assert DelegatorPayouts(st, pool, exact, i + 1) == soFar;
        last := Some(i);
        continue;
      }
      var p := Payout(Some(i), share);
      PayOneMore(env, index, input, owner, credits, h, own + soFar, p);
      assert own + DelegatorPayouts(st, pool, exact, i + 1) == own + soFar + [p];
      var next := Pay(env, index, input, owner, credits, held, p);
      if next.None? {
        PartialFails(env, index, input, owner, credits, h, pool, self, i + 1);
        return None;
      }
      PartialWithin(st, pool, self, exact, i + 1);
      held, total, last := next.value, total + share, Some(i);
    }
    return Some((held, total, last));
  }

  /** What rounding left over. */
  method PayRemainder(env: Env, index: Index, input: Input, owner: Address, credits: nat, h: Held, pool: Word,
                      self: Word, after: Held, distributed: Word, last: Option<nat>)
    returns (r: Option<Held>)
    requires pool > 0 && h.stake.active > 0 && SelfActive(h.stake) == Some(self)
    requires PayAll(env, index, input, owner, credits, h, Shares(h.stake, pool, self, IsExact(input))) == Some(after)
    requires Paid(Shares(h.stake, pool, self, IsExact(input))) == distributed
    requires last == LastActive(h.stake.delegations, |h.stake.delegations|)
    ensures r == DistributionOf(env, index, input, owner, credits, h, pool)
  {
    hide Pay, PayAll, Paid, Shares, SelfActive, LastActive;
    if distributed >= pool {
      return Some(after);
    }
    var remainder := pool - distributed;
    ghost var shares := Shares(h.stake, pool, self, IsExact(input));
    if self > 0 {
      PayOneMore(env, index, input, owner, credits, h, shares, Payout(None, remainder));
      return Pay(env, index, input, owner, credits, after, Payout(None, remainder));
    }
    if last.None? {
      return Some(after);
    }
    PayOneMore(env, index, input, owner, credits, h, shares, Payout(last, remainder));
    return Pay(env, index, input, owner, credits, after, Payout(last, remainder));
  }

  /** The settlement of one rewarded validator: commission, then the loop over its stakers. */
  method SettleRewardedValidator(env: Env, index: Index, input: Input, pool: EpochPool, owner: Address, h: Held)
    returns (r: Option<Book>)
    ensures r == RewardStep(env, index, input, pool, owner, h)
  {
    hide VoteReward, Prorate, Payouts, PayAll, Commissioned, WriteBack;
    var matured := env.mature(h.stake, input.epoch);
    if matured.None? {
      return None;
    }
    var credits := RewardCredits(matured.value);
    var reward := VoteReward(env, input, pool, matured.value, credits);
    if reward.None? {
      return None;
    }
    var commission := Prorate(reward.value, matured.value.commissionBps, BASIS_POINTS);
    CommissionFits(reward.value, matured.value.commissionBps);
    var charged := Commissioned(input, owner, h.(stake := matured.value), commission);
    if charged.None? {
      return None;
    }
    var paid := DistributeStakePayout(env, index, input, owner, credits, charged.value, reward.value - commission);
    if paid.None? || paid.value.stake.totalReward + reward.value > MAX {
      return None;
    }
    var stake := paid.value.stake.(totalReward := paid.value.stake.totalReward + reward.value, voteCredits := 0,
                                   missedVotes := 0, missedProposals := 0, lastRewardEpoch := input.epoch);
    r := WriteBack(env, paid.value.(stake := stake));
  }

  // ----- What a settlement pays -----

  lemma {:induction false} PayAllTotals(
    env: Env, index: Index, input: Input, owner: Address, credits: nat, h: Held, ps: seq<Payout>)
    requires PayAll(env, index, input, owner, credits, h, ps).Some?
    ensures PaidTotal(PayAll(env, index, input, owner, credits, h, ps).value.book.rewards) ==
            PaidTotal(h.book.rewards) + Paid(ps)
  {
    hide Counted, Credited, ValidWithRent, Destination, PaidTotal;
    if ps != [] {
      var n := |ps| - 1;
      PayAllTotals(env, index, input, owner, credits, h, ps[..n]);
      var front := PayAll(env, index, input, owner, credits, h, ps[..n]).value;
      var to := Destination(front.stake, ps[n]);
      RecordAppended(front.book.rewards,
                     Reward(VotePayout, front.stake.validatorId, to, front.stake.staker, input.epoch, input.slot, ps[n].lamports, credits));
    }
  }

  lemma CommissionTotals(input: Input, owner: Address, h: Held, commission: Word)
    requires Commissioned(input, owner, h, commission).Some?
    ensures PaidTotal(Commissioned(input, owner, h, commission).value.book.rewards) == PaidTotal(h.book.rewards) + commission
    ensures var st := Commissioned(input, owner, h, commission).value.stake;
            st.active == h.stake.active && st.delegations == h.stake.delegations
  {
    RecordAppended(h.book.rewards,
                   Reward(Commission, h.stake.validatorId, owner, h.stake.staker, input.epoch, input.slot, commission, 0));
  }

  /** A rewarded validator with active stake pays out its whole reward: commission and payouts add up. */
  lemma RewardIsPaidOut(env: Env, index: Index, input: Input, pool: EpochPool, owner: Address, h: Held)
    requires RewardStep(env, index, input, pool, owner, h).Some? && env.mature(h.stake, input.epoch).value.active > 0
    ensures var st := env.mature(h.stake, input.epoch).value;
            PaidTotal(RewardStep(env, index, input, pool, owner, h).value.rewards) ==
            PaidTotal(h.book.rewards) + VoteReward(env, input, pool, st, RewardCredits(st)).value
  {
    hide VoteReward, Prorate, Payouts, PayAll, Commissioned, RewardCredits, WithData;
    var st := env.mature(h.stake, input.epoch).value;
    var credits := RewardCredits(st);
    var reward := VoteReward(env, input, pool, st, credits).value;
    var commission := Prorate(reward, st.commissionBps, BASIS_POINTS);
    CommissionFits(reward, st.commissionBps);
    CommissionTotals(input, owner, h.(stake := st), commission);
    var charged := Commissioned(input, owner, h.(stake := st), commission).value;
    PayoutSum(charged.stake, reward - commission, IsExact(input));
    PayAllTotals(env, index, input, owner, credits, charged, Payouts(charged.stake, reward - commission, IsExact(input)).value);
  }

  /** Without active stake only the commission is paid, so a settlement never pays more than the reward. */
  lemma RewardPaysAtMost(env: Env, index: Index, input: Input, pool: EpochPool, owner: Address, h: Held)
    requires RewardStep(env, index, input, pool, owner, h).Some?
    ensures var st := env.mature(h.stake, input.epoch).value;
            PaidTotal(h.book.rewards) <= PaidTotal(RewardStep(env, index, input, pool, owner, h).value.rewards) <=
            PaidTotal(h.book.rewards) + VoteReward(env, input, pool, st, RewardCredits(st)).value
  {
    hide VoteReward, Prorate, PayAll, Commissioned, RewardCredits, WithData, PaidTotal;
    var st := env.mature(h.stake, input.epoch).value;
    if st.active > 0 {
      RewardIsPaidOut(env, index, input, pool, owner, h);
    } else {
      var credits := RewardCredits(st);
      var reward := VoteReward(env, input, pool, st, credits).value;
      var commission := Prorate(reward, st.commissionBps, BASIS_POINTS);
      CommissionFits(reward, st.commissionBps);
      CommissionTotals(input, owner, h.(stake := st), commission);
      PayNothing(env, index, input, owner, credits, Commissioned(input, owner, h.(stake := st), commission).value);
    }
  }

  lemma PayoutSum(st: StakeState, pool: Word, exact: bool)
    requires st.active > 0 && Payouts(st, pool, exact).Some?
    ensures Paid(Payouts(st, pool, exact).value) == pool
  {
    if pool > 0 {
      PayoutIsExact(st, pool, exact);
    }
  }

  // ----- Slash records -----

  /** The held account has the lamports asked for above its minimum balance. */
  predicate Affords(env: Env, h: Held, requested: Word) {
    || requested == 0
    || (env.minimumBalance(|h.account.data|).Some? &&
        h.account.lamports >= env.minimumBalance(|h.account.data|).value + requested)
  }

  lemma BurnedIsRequested(env: Env, h: Held, requested: Word)
    requires BurnSlash(env, h, requested).Some?
    ensures BurnSlash(env, h, requested).value.1 <= requested
    ensures BurnSlash(env, h, requested).value.1 == requested <==> Affords(env, h, requested)
  {
  }

  lemma NotedTotals(input: Input, o: Offence, st: StakeState, requested: Word, b: Book)
    ensures var noted := SlashNoted(input, o, st, requested, b);
            SlashedTotal(noted.rewards) == SlashedTotal(b.rewards) + requested && noted.burns == b.burns
  {
    var slash := Reward(Slash, st.validatorId, o.account, st.staker, input.epoch, o.slot, requested, 0);
    var jail := Reward(Jail, st.validatorId, o.account, st.staker, input.epoch, o.slot, 0, 0);
    SlashAppended(b.rewards, slash);
    SlashAppended(b.rewards, jail);
    SlashAppended(b.rewards + [slash], jail);
  }

  /** The records of a slash name the lamports asked for, never less than it burned; they are the lamports burned
      exactly when the account held that much above its minimum balance. */
  lemma SlashRecordIsTrue(env: Env, index: Index, input: Input, o: Offence, b: Book)
    requires SlashStep(env, index, input, o, b).Some?
    requires Load(env, index, b, o.account).Some? && Load(env, index, b, o.account).value.stake.lastSlashedSlot < o.slot
    ensures var h, after := Load(env, index, b, o.account).value, SlashStep(env, index, input, o, b).value;
            var requested := RequestedSlash(h.stake, input.config.slashBps);
            var recorded := SlashedTotal(after.rewards) - SlashedTotal(b.rewards);
            var burned := BurnedTotal(after.burns) - BurnedTotal(b.burns);
            && requested == Some(recorded) && 0 <= burned <= recorded
            && (recorded == burned <==> Affords(env, h, requested.value))
  {
    hide BurnSlash, RequestedSlash, Convicted, SlashNoted, Load, Affords;
    var h := Load(env, index, b, o.account).value;
    var requested := RequestedSlash(h.stake, input.config.slashBps).value;
    var (held, burned) := BurnSlash(env, h, requested).value;
    BurnedIsRequested(env, h, requested);
    BurnAppended(b.burns, Burn(o.account, burned));
    var taken := b.(burns := b.burns + [Burn(o.account, burned)]);
    NotedTotals(input, o, Convicted(env, input, o, held.stake).value, requested, taken);
  }

  // A validator with the minimum stake, in a listed account that holds exactly that stake and may not fall below 5.
  const SOLE :=
    StakeState(1, 2, Active, 10_000_000, 0, 0, [], 0, 0, 0, 0, 0, 0, 0, 0, 0, 0, 0, 0, 0, 0)

  const SOLE_LEFT := SOLE.(active := 0)

  const SOLE_JAILED := SOLE_LEFT.(status := Jailed, jailUntilEpoch := 5, unlockEpoch := 5, lastSlashedSlot := 12)

  const SOLE_BOOK := Book([Entry(9, Account(10_000_000, [1], STAKE_PROGRAM, false))], [], [])

  /** A codec of the two states, one byte each. */
  function EncodeSole(st: StakeState): Option<Bytes> {
    if st == SOLE then Some([1]) else if st == SOLE_JAILED then Some([2]) else None
  }

  function DecodeSole(data: Bytes): Option<StakeState> {
    if data == [1] then Some(SOLE) else if data == [2] then Some(SOLE_JAILED) else None
  }

  function SoleEnv(): Env {
    Env(DecodeSole, EncodeSole, n => Some(5), (st: StakeState, e: nat) => Some(st),
        (st: StakeState, e: nat) => Some(if st.status == Jailed then 0 else st.active),
        (st: StakeState) => Some((st, false)),
        (st: StakeState, amount: Word) => if amount <= st.active then Some(st.(active := st.active - amount)) else None,
        (supply: nat, slots: nat) => Some(0))
  }

  const HALF_SLASH := Config(1, 0, 0, 10, 1, 1, 1, 1, 1, 5000, 1, true)

  function SlashInput(): Input {
    Input(20, 19, 5, 4, 16, 31, Member(1, 9), [], slot => None, [], [], [Offence(9, 12)], HALF_SLASH)
  }

  lemma SoleCodec(st: StakeState)
    requires EncodeSole(st).Some?
    ensures DecodeSole(EncodeSole(st).value) == Some(st)
  {
  }

  /** Half of the minimum stake cannot stay, so the whole stake is slashed and recorded; the minimum balance of the
      account is not burned. */
  lemma SlashRecordOverstates()
    ensures var after := SlashStep(SoleEnv(), map[9 := 0], SlashInput(), Offence(9, 12), SOLE_BOOK);
            && after.Some?
            && after.value.rewards == [Reward(Slash, 1, 9, 2, 4, 12, 10_000_000, 0), Reward(Jail, 1, 9, 2, 4, 12, 0, 0)]
            && after.value.burns == [Burn(9, 9_999_995)]
            && after.value.accounts == [Entry(9, Account(5, [2], STAKE_PROGRAM, false))]
  {
    hide RequestedSlash, BurnSlash, Convicted, SlashNoted, WriteBack, Load;
    SoleLoads();
    SoleRequests();
    SoleBurns();
    SoleConvicted();
    SoleNoted();
    SoleWrites();
  }

  const SOLE_HELD := Held(SOLE_BOOK, 0, Account(10_000_000, [1], STAKE_PROGRAM, false), SOLE)

  const SOLE_BURNED := SOLE_HELD.(account := Account(5, [1], STAKE_PROGRAM, false), stake := SOLE_LEFT)

  const SOLE_NOTED := Book(
    SOLE_BOOK.accounts,
    [Reward(Slash, 1, 9, 2, 4, 12, 10_000_000, 0), Reward(Jail, 1, 9, 2, 4, 12, 0, 0)],
    [Burn(9, 9_999_995)])

  lemma SoleLoads()
    ensures Load(SoleEnv(), map[9 := 0], SOLE_BOOK, 9) == Some(SOLE_HELD)
  {
  }

  lemma SoleRequests()
    ensures RequestedSlash(SOLE, 5000) == Some(10_000_000)
  {
    hide RequestedSlash;
    SmallStakeGoesWhole(SOLE, 5000);
  }

  /** Of a stake no larger than the minimum nothing is left. */
  lemma SmallStakeGoesWhole(st: StakeState, bps: BasisPoints)
    requires bps > 0 && TotalStake(st).Some? && BASIS_POINTS <= TotalStake(st).value <= MINIMUM_STAKE
    ensures RequestedSlash(st, bps) == TotalStake(st)
  {
    hide Prorate;
    var total := TotalStake(st).value;
    ExactBounds(total, bps, BASIS_POINTS);
    MulMonotone(1, bps, total);
    assert Prorate(total, bps, BASIS_POINTS) > 0;
  }

  lemma SoleBurns()
    ensures BurnSlash(SoleEnv(), SOLE_HELD, 10_000_000) == Some((SOLE_BURNED, 9_999_995))
  {
  }

  lemma SoleConvicted()
    ensures Convicted(SoleEnv(), SlashInput(), Offence(9, 12), SOLE_LEFT) == Some(SOLE_JAILED)
  {
  }

  lemma SoleNoted()
    ensures SlashNoted(SlashInput(), Offence(9, 12), SOLE_JAILED, 10_000_000, SOLE_BOOK.(burns := [] + [Burn(9, 9_999_995)])) ==
            SOLE_NOTED
  {
    assert [] + [Reward(Slash, 1, 9, 2, 4, 12, 10_000_000, 0)] + [Reward(Jail, 1, 9, 2, 4, 12, 0, 0)] == SOLE_NOTED.rewards;
    assert [] + [Burn(9, 9_999_995)] == SOLE_NOTED.burns;
  }

  lemma SoleWrites()
    ensures WriteBack(SoleEnv(), SOLE_BURNED.(book := SOLE_NOTED, stake := SOLE_JAILED)) ==
            Some(SOLE_NOTED.(accounts := [Entry(9, Account(5, [2], STAKE_PROGRAM, false))]))
  {
    var account := Account(5, [2], STAKE_PROGRAM, false);
    assert EncodeSole(SOLE_JAILED) == Some([2]);
    assert WithData(SoleEnv(), SOLE_BURNED.account, [2]) == Some(account);
    assert SOLE_NOTED.accounts[0 := Entry(9, account)] == [Entry(9, account)];
  }
}
