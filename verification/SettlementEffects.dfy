/** What the settlement of a validator does: the reward it earned, who is paid, and the stake state it leaves. */
module SettlementEffects {

  import opened ChainState
  import opened PayoutRecipients
  import opened RewardRun
  import opened Rewards
  import opened StakePayout
  import opened SupplyAccounting
  import opened Uint64
  import opened Wrappers

  // ----- What was earned -----

  /** Votes credited less proposals missed, at a fixed price each or as a part of the pool by stake. */
  function Earned(env: Env, input: Input, pool: EpochPool, st: StakeState): nat {
    var credits := if st.voteCredits > st.missedProposals then st.voteCredits - st.missedProposals else 0;
    var effective := env.effectiveStake(st, input.epoch);
    if input.config.lamportsPerCredit != 0 then credits * input.config.lamportsPerCredit
    else if pool.weight == 0 || effective.None? then 0
    else pool.lamports * (effective.value * credits) / pool.weight
  }

  lemma RewardIsEarned(env: Env, input: Input, pool: EpochPool, st: StakeState)
    requires VoteReward(env, input, pool, st, RewardCredits(st)).Some?
    ensures VoteReward(env, input, pool, st, RewardCredits(st)).value == Earned(env, input, pool, st)
  {
    var effective := env.effectiveStake(st, input.epoch);
    if RewardCredits(st) == 0 && effective.Some? {
      assert effective.value * 0 == 0 && pool.lamports * 0 == 0;
    }
    if pool.lamports == 0 && effective.Some? {
      assert 0 * (effective.value * RewardCredits(st)) == 0;
    }
  }

  /** The validator's own cut. */
  function Cut(reward: nat, bps: nat): nat {
    reward * bps / 10_000
  }

  lemma CommissionIsCut(reward: Word, bps: BasisPoints)
    ensures Prorate(reward, bps, BASIS_POINTS) == Cut(reward, bps) <= reward
  {
    ProrateFits(reward, bps, BASIS_POINTS);
    if reward == 0 || bps == 0 {
      assert reward * bps == 0;
    }
  }

  // ----- What the stakers are due does not depend on the counters -----

  predicate SameStakes(st: StakeState, su: StakeState) {
    st.active == su.active && st.delegations == su.delegations && st.staker == su.staker
  }

  lemma {:induction false} SameParts(st: StakeState, su: StakeState, pool: nat, exact: bool, n: nat)
    requires SameStakes(st, su) && st.active > 0 && n <= |st.delegations|
    ensures DelegatedParts(st, pool, exact, n) == DelegatedParts(su, pool, exact, n)
  {
    hide Part;
    if n > 0 {
      SameParts(st, su, pool, exact, n - 1);
    }
  }

  lemma SameDue(st: StakeState, su: StakeState, pool: nat, exact: bool, r: Receiver)
    requires SameStakes(st, su) && st.active > 0 && IsReceiver(st, r) && Delegated(st.delegations) <= st.active
    ensures Due(st, pool, exact, r) == Due(su, pool, exact, r)
  {
    hide Part, DelegatedParts;
    SameParts(st, su, pool, exact, |st.delegations|);
  }

  lemma {:induction false} SameDueAsDelegator(st: StakeState, su: StakeState, pool: nat, exact: bool, a: Address, n: nat)
    requires SameStakes(st, su) && st.active > 0 && Delegated(st.delegations) <= st.active && n <= |st.delegations|
    ensures DueAsDelegator(st, pool, exact, a, n) == DueAsDelegator(su, pool, exact, a, n)
  {
    hide Due;
    if n > 0 {
      SameDueAsDelegator(st, su, pool, exact, a, n - 1);
      SameDue(st, su, pool, exact, Some(n - 1));
    }
  }

  /** What a receiver is owed of a payout; nothing is paid without lamports or without active stake. */
  ghost function Owed(st: StakeState, pool: nat, exact: bool, r: Receiver): int
    requires IsReceiver(st, r)
  {
    if pool == 0 || st.active == 0 || st.active < Delegated(st.delegations) then 0 else Due(st, pool, exact, r)
  }

  ghost function OwedAt(st: StakeState, pool: nat, exact: bool, a: Address): int {
    if pool == 0 || st.active == 0 || st.active < Delegated(st.delegations) then 0 else DueAt(st, pool, exact, a)
  }

  lemma DistributionPaysOwed(
    env: Env, index: Index, input: Input, owner: Address, credits: nat, h: Held, st: StakeState, pool: Word, a: Address, r: Receiver)
    requires SameStakes(st, h.stake) && IsReceiver(st, r)
    requires DistributionOf(env, index, input, owner, credits, h, pool).Some?
    ensures var after := DistributionOf(env, index, input, owner, credits, h, pool).value;
            && PaidTo(after.book.rewards, a) == PaidTo(h.book.rewards, a) + OwedAt(st, pool, IsExact(input), a)
            && SameButRewards(h.stake, after.stake)
            && CounterOf(after.stake, r) == CounterOf(h.stake, r) + Owed(st, pool, IsExact(input), r)
  {
    hide PayAll, PaidTo, Due, DueAsDelegator;
    if pool == 0 || st.active == 0 {
      PayNothing(env, index, input, owner, credits, h);
    } else {
      DistributionPaysDue(env, index, input, owner, credits, h, pool, a, r);
      hide Payouts, SameButRewards;
      SameDue(st, h.stake, pool, IsExact(input), r);
      SameDue(st, h.stake, pool, IsExact(input), None);
      SameDueAsDelegator(st, h.stake, pool, IsExact(input), a, |st.delegations|);
    }
  }

  // ----- A rewarded validator -----

  /** The account at a place holds the encoding of a stake state. */
  predicate Holds(env: Env, b: Book, place: nat, st: StakeState) {
    && place < |b.accounts| && env.encode(st).Some?
    && b.accounts[place].account.data == env.encode(st).value
  }

  lemma WrittenHolds(env: Env, h: Held)
    requires WriteBack(env, h).Some?
    ensures Holds(env, WriteBack(env, h).value, h.place, h.stake) && WriteBack(env, h).value.rewards == h.book.rewards
  {
  }

  lemma CommissionPaid(input: Input, owner: Address, h: Held, commission: Word, a: Address)
    requires Commissioned(input, owner, h, commission).Some?
    ensures var after := Commissioned(input, owner, h, commission).value;
            && PaidTo(after.book.rewards, a) == PaidTo(h.book.rewards, a) + (if a == owner then commission else 0)
            && after.stake == h.stake.(commissionReward := h.stake.commissionReward + commission)
            && after.place == h.place
  {
    hide PaidTo, Credited;
    RecordAppended(h.book.rewards,
                   Reward(Commission, h.stake.validatorId, owner, h.stake.staker, input.epoch, input.slot, commission, 0));
  }

  /** The stake state a reward leaves: the counters of what was paid rise by it, those of the epoch start again. */
  predicate RewardedAs(st: StakeState, input: Input, reward: nat, fin: StakeState) {
    var commission := Cut(reward, st.commissionBps);
    && SameButRewards(st, fin.(commissionReward := st.commissionReward, totalReward := st.totalReward, voteCredits := st.voteCredits,
                               missedVotes := st.missedVotes, missedProposals := st.missedProposals, lastRewardEpoch := st.lastRewardEpoch))
    && fin.commissionReward == st.commissionReward + commission
    && fin.totalReward == st.totalReward + reward
    && fin.voteCredits == 0 && fin.missedVotes == 0 && fin.missedProposals == 0
    && fin.lastRewardEpoch == input.epoch
  }

  /** Every settlement that rewards: the commission goes to the validator's account, each staker is paid what it is owed
      of the rest, nobody else is paid anything, and the written stake state counts the same amounts. */
  lemma RewardSettles(env: Env, index: Index, input: Input, pool: EpochPool, owner: Address, h: Held, a: Address, r: Receiver)
    returns (fin: StakeState)
    requires RewardStep(env, index, input, pool, owner, h).Some? && IsReceiver(env.mature(h.stake, input.epoch).value, r)
    ensures env.mature(h.stake, input.epoch).Some?
    ensures var st, after := env.mature(h.stake, input.epoch).value, RewardStep(env, index, input, pool, owner, h).value;
            var reward := Earned(env, input, pool, st);
            var commission := Cut(reward, st.commissionBps);
            && commission <= reward
            && PaidTo(after.rewards, a) ==
               PaidTo(h.book.rewards, a) + (if a == owner then commission else 0) + OwedAt(st, reward - commission, IsExact(input), a)
            && Holds(env, after, h.place, fin) && RewardedAs(st, input, reward, fin)
            && CounterOf(fin, r) == CounterOf(st, r) + Owed(st, reward - commission, IsExact(input), r)
  {
    hide VoteReward, Prorate, Payouts, PayAll, Commissioned, RewardCredits, WriteBack, Earned, Cut, PaidTo, Owed, OwedAt, Holds;
    var st := env.mature(h.stake, input.epoch).value;
    var credits := RewardCredits(st);
    var reward := VoteReward(env, input, pool, st, credits).value;
    RewardIsEarned(env, input, pool, st);
    CommissionIsCut(reward, st.commissionBps);
    var commission := Cut(reward, st.commissionBps);
    CommissionPaid(input, owner, h.(stake := st), commission, a);
    var charged := Commissioned(input, owner, h.(stake := st), commission).value;
    DistributionPaysOwed(env, index, input, owner, credits, charged, st, reward - commission, a, r);
    var paid := DistributionOf(env, index, input, owner, credits, charged, reward - commission).value;
    PlaceKept(env, index, input, owner, credits, charged, Payouts(charged.stake, reward - commission, IsExact(input)).value);
    fin := paid.stake.(totalReward := paid.stake.totalReward + reward, voteCredits := 0, missedVotes := 0, missedProposals := 0,
                       lastRewardEpoch := input.epoch);
    WrittenHolds(env, paid.(stake := fin));
  }

  lemma {:induction false} PlaceKept(
    env: Env, index: Index, input: Input, owner: Address, credits: nat, h: Held, ps: seq<Payout>)
    requires PayAll(env, index, input, owner, credits, h, ps).Some?
    ensures PayAll(env, index, input, owner, credits, h, ps).value.place == h.place
  {
    if ps != [] {
      PlaceKept(env, index, input, owner, credits, h, ps[..|ps| - 1]);
    }
  }

  // ----- The leader's fee -----

  /** The fees of a block go to its leader and to nobody else. */
  lemma FeesGoToLeader(env: Env, index: Index, input: Input, b: Book, a: Address)
    requires LeaderFeeStep(env, index, input, b).Some?
    ensures PaidTo(LeaderFeeStep(env, index, input, b).value.rewards, a) ==
            PaidTo(b.rewards, a) + if a == input.leader.account then FeeTotal(input.fees) else 0
  {
    hide PaidTo, Credited, ValidWithRent, FeeTotal;
    var fee := FeeTotal(input.fees);
    if fee > 0 {
      RecordAppended(b.rewards, Reward(LeaderFee, input.leader.id, input.leader.account, 0, input.epoch, input.slot, fee, 0));
    }
  }

  // ----- Jail -----

  /** Jail for performance: the longer of the terms whose threshold was reached, at least one epoch. */
  function Term(st: StakeState, c: Config): nat {
    var votes := if st.missedVotes >= c.missedVoteThreshold then c.missedVoteJailEpochs else 0;
    var proposals := if st.missedProposals >= c.missedProposalThreshold then c.missedProposalJailEpochs else 0;
    if votes >= proposals then if votes > 1 then votes else 1 else proposals
  }

  /** A jailed validator is paid nothing, nor is anyone else; it stays jailed for its term and starts afresh. */
  lemma JailSettles(env: Env, input: Input, owner: Address, h: Held, a: Address) returns (fin: StakeState)
    requires JailStep(env, input, owner, h).Some?
    ensures env.mature(h.stake, input.epoch).Some?
    ensures var st, after := env.mature(h.stake, input.epoch).value, JailStep(env, input, owner, h).value;
            var until := input.epoch + Term(st, input.config);
            && PaidTo(after.rewards, a) == PaidTo(h.book.rewards, a)
            && Holds(env, after, h.place, fin)
            && fin == st.(status := Jailed, jailUntilEpoch := until, unlockEpoch := until, voteCredits := 0, missedVotes := 0,
                          missedProposals := 0, lastRewardEpoch := input.epoch, lastEffectiveStake := fin.lastEffectiveStake)
            && env.effectiveStake(fin.(lastEffectiveStake := st.lastEffectiveStake), input.epoch) == Some(fin.lastEffectiveStake)
  {
    hide PaidTo, WriteBack, Holds;
    var st := env.mature(h.stake, input.epoch).value;
    var until := input.epoch + PerformanceJailEpochs(st, input.config);
    var jailed := st.(status := Jailed, jailUntilEpoch := until, unlockEpoch := until, voteCredits := 0,
                      missedVotes := 0, missedProposals := 0, lastRewardEpoch := input.epoch);
    fin := jailed.(lastEffectiveStake := env.effectiveStake(jailed, input.epoch).value);
    var r := Reward(Jail, fin.validatorId, owner, fin.staker, input.epoch, input.slot, 0, 0);
    RecordAppended(h.book.rewards, r);
    WrittenHolds(env, h.(book := Record(h.book, r), stake := fin));
  }

  // ----- Slashing -----

  /** The slash asked for: the fraction of all the stake, or all of it when less than the minimum would remain. */
  function Penalty(st: StakeState, bps: nat): nat {
    var total := st.active + st.pending + st.unlocking;
    var part := total * bps / 10_000;
    if bps == 0 || total == 0 then 0 else if total - part < 10_000_000 then total else part
  }

  lemma RequestIsPenalty(st: StakeState, bps: BasisPoints)
    requires RequestedSlash(st, bps).Some?
    ensures RequestedSlash(st, bps).value == Penalty(st, bps)
  {
    var total := TotalStake(st).value;
    CommissionIsCut(total, bps);
  }

  /** The stake state before a conviction, less the slash. */
  function Reduced(env: Env, st: StakeState, amount: Word): Option<StakeState> {
    if amount == 0 then Some(st) else env.applySlash(st, amount)
  }

  /** A slash pays nobody, records the penalty and jails: never for less time than before, without its credits, and
      not again for an offence in the same slot or an earlier one. */
  lemma SlashSettles(env: Env, index: Index, input: Input, o: Offence, b: Book, a: Address) returns (fin: StakeState)
    requires SlashStep(env, index, input, o, b).Some?
    requires Load(env, index, b, o.account).Some? && Load(env, index, b, o.account).value.stake.lastSlashedSlot < o.slot
    ensures var h, after := Load(env, index, b, o.account).value, SlashStep(env, index, input, o, b).value;
            var penalty := Penalty(h.stake, input.config.slashBps);
            && penalty <= MAX && Reduced(env, h.stake, penalty).Some?
            && var st := Reduced(env, h.stake, penalty).value;
            && PaidTo(after.rewards, a) == PaidTo(b.rewards, a)
            && SlashedTotal(after.rewards) == SlashedTotal(b.rewards) + penalty
            && Holds(env, after, h.place, fin)
            && fin.jailUntilEpoch >= input.epoch + input.config.jailEpochs && fin.jailUntilEpoch >= st.jailUntilEpoch
            && (fin.jailUntilEpoch == input.epoch + input.config.jailEpochs || fin.jailUntilEpoch == st.jailUntilEpoch)
            && fin == st.(status := Jailed, jailUntilEpoch := fin.jailUntilEpoch, unlockEpoch := fin.jailUntilEpoch,
                          lastSlashedSlot := o.slot, voteCredits := 0, missedVotes := 0, missedProposals := 0,
                          lastEffectiveStake := fin.lastEffectiveStake)
  {
    hide PaidTo, WriteBack, Holds, Load, RequestedSlash, Penalty, SlashedTotal, SlashNoted;
    var h := Load(env, index, b, o.account).value;
    RequestIsPenalty(h.stake, input.config.slashBps);
    var requested := RequestedSlash(h.stake, input.config.slashBps).value;
    var (held, burned) := BurnSlash(env, h, requested).value;
    fin := Convicted(env, input, o, held.stake).value;
    var taken := b.(burns := b.burns + [Burn(o.account, burned)]);
    NotedTotals(input, o, fin, requested, taken);
    NotedPaysNobody(input, o, fin, requested, taken, a);
    WrittenHolds(env, held.(book := SlashNoted(input, o, fin, requested, taken), stake := fin));
  }

  lemma NotedPaysNobody(input: Input, o: Offence, st: StakeState, requested: Word, b: Book, a: Address)
    ensures PaidTo(SlashNoted(input, o, st, requested, b).rewards, a) == PaidTo(b.rewards, a)
  {
    hide PaidTo;
    var slash := Reward(Slash, st.validatorId, o.account, st.staker, input.epoch, o.slot, requested, 0);
    var jail := Reward(Jail, st.validatorId, o.account, st.staker, input.epoch, o.slot, 0, 0);
    RecordAppended(b.rewards, slash);
    RecordAppended(b.rewards, jail);
    RecordAppended(b.rewards + [slash], jail);
  }
}
