/** The vote rewards of an epoch against the inflation pool they are drawn from. */
module RewardPool {

  import opened Arithmetic
  import opened BlockRewards
  import opened ChainState
  import opened RewardRun
  import opened Rewards
  import opened StakePayout
  import opened SupplyAccounting
  import opened Uint64
  import opened Wrappers

  /** The weight a validator is rewarded by. */
  function WeightOf(env: Env, input: Input, st: StakeState): nat {
    var effective := env.effectiveStake(st, input.epoch);
    if RewardCredits(st) == 0 || effective.None? then 0 else Weight(effective.value, RewardCredits(st))
  }

  /** The weight the settlement of one stake account draws on the pool: none if it is skipped or jailed. */
  function DrawnBy(env: Env, index: Index, input: Input, owner: Address, b: Book, active: nat): nat {
    var h := Load(env, index, b, owner);
    if h.None? || h.value.stake.lastRewardEpoch >= input.epoch then 0
    else if ShouldJail(h.value.stake, input.config) && active > input.config.minActive then 0
    else
      var matured := env.mature(h.value.stake, input.epoch);
      if matured.None? then 0 else WeightOf(env, input, matured.value)
  }

  /** The weight drawn by a whole settlement. */
  function DrawnFrom(
    env: Env, index: Index, input: Input, pool: EpochPool, list: seq<Address>, i: nat, b: Book, active: nat): nat
    decreases |list| - i
  {
    if i >= |list| then 0
    else
      var next := SettleStep(env, index, input, pool, list[i], b, active);
      DrawnBy(env, index, input, list[i], b, active) +
      if next.None? then 0 else DrawnFrom(env, index, input, pool, list, i + 1, next.value.0, next.value.1)
  }

  /** `paid` is no more than the part of the pool that the weight entitles to. */
  predicate Entitled(pool: EpochPool, paid: nat, weight: nat) {
    paid * pool.weight <= pool.lamports * weight && (pool.weight == 0 ==> paid == 0)
  }

  lemma EntitledSum(pool: EpochPool, p: nat, v: nat, q: nat, w: nat)
    requires Entitled(pool, p, v) && Entitled(pool, q, w)
    ensures Entitled(pool, p + q, v + w)
  {
    Distribute(p, q, pool.weight);
    Distribute(v, w, pool.lamports);
  }

  lemma EntitledFits(pool: EpochPool, paid: nat, weight: nat)
    requires Entitled(pool, paid, weight) && weight <= pool.weight
    ensures paid <= pool.lamports
  {
    if pool.weight > 0 {
      MulMonotone(weight, pool.weight, pool.lamports);
      CancelFactor(paid, pool.lamports, pool.weight);
    }
  }

  /** A vote reward is a share of the pool, rounded down. */
  lemma RewardIsEntitled(env: Env, input: Input, pool: EpochPool, st: StakeState)
    requires input.config.lamportsPerCredit == 0
    requires VoteReward(env, input, pool, st, RewardCredits(st)).Some?
    ensures Entitled(pool, VoteReward(env, input, pool, st, RewardCredits(st)).value, WeightOf(env, input, st))
  {
    var reward, weight := VoteReward(env, input, pool, st, RewardCredits(st)).value, WeightOf(env, input, st);
    if reward > 0 {
      FloorBracket(pool.lamports * weight, pool.weight);
    }
  }

  lemma LessIsEntitled(pool: EpochPool, p: nat, q: nat, weight: nat)
    requires Entitled(pool, q, weight) && p <= q
    ensures Entitled(pool, p, weight)
  {
    MulMonotone(p, q, pool.weight);
  }

  lemma StepIsEntitled(env: Env, index: Index, input: Input, pool: EpochPool, owner: Address, b: Book, active: nat)
    requires input.config.lamportsPerCredit == 0 && SettleStep(env, index, input, pool, owner, b, active).Some?
    ensures var after := SettleStep(env, index, input, pool, owner, b, active).value.0;
            && PaidTotal(b.rewards) <= PaidTotal(after.rewards)
            && Entitled(pool, PaidTotal(after.rewards) - PaidTotal(b.rewards), DrawnBy(env, index, input, owner, b, active))
  {
    hide RewardStep, JailStep, Entitled, VoteReward, WeightOf, RewardCredits, PaidTotal;
    var h := Load(env, index, b, owner).value;
    if h.stake.lastRewardEpoch >= input.epoch {
      NothingEntitled(pool);
    } else if ShouldJail(h.stake, input.config) && active > input.config.minActive {
      NothingEntitled(pool);
      JailPaysNothing(env, input, owner, h);
    } else {
      MaturedForReward(env, index, input, pool, owner, h);
      var st := env.mature(h.stake, input.epoch).value;
      RewardPaysAtMost(env, index, input, pool, owner, h);
      RewardIsEntitled(env, input, pool, st);
      var after := RewardStep(env, index, input, pool, owner, h).value;
      LessIsEntitled(pool, PaidTotal(after.rewards) - PaidTotal(b.rewards),
                     VoteReward(env, input, pool, st, RewardCredits(st)).value, WeightOf(env, input, st));
    }
  }

  lemma NothingEntitled(pool: EpochPool)
    ensures Entitled(pool, 0, 0)
  {
  }

  lemma MaturedForReward(env: Env, index: Index, input: Input, pool: EpochPool, owner: Address, h: Held)
    requires RewardStep(env, index, input, pool, owner, h).Some?
    ensures env.mature(h.stake, input.epoch).Some?
    ensures var st := env.mature(h.stake, input.epoch).value; VoteReward(env, input, pool, st, RewardCredits(st)).Some?
  {
  }

  lemma JailPaysNothing(env: Env, input: Input, owner: Address, h: Held)
    requires JailStep(env, input, owner, h).Some?
    ensures PaidTotal(JailStep(env, input, owner, h).value.rewards) == PaidTotal(h.book.rewards)
  {
    var book := JailStep(env, input, owner, h).value;
    assert book.rewards[..|book.rewards| - 1] == h.book.rewards;
  }

  lemma {:induction false} SettlementIsEntitled(
    env: Env, index: Index, input: Input, pool: EpochPool, list: seq<Address>, i: nat, b: Book, active: nat)
    requires input.config.lamportsPerCredit == 0 && SettleFrom(env, index, input, pool, list, i, b, active).Some?
    ensures var after := SettleFrom(env, index, input, pool, list, i, b, active).value;
            && PaidTotal(b.rewards) <= PaidTotal(after.rewards)
            && Entitled(pool, PaidTotal(after.rewards) - PaidTotal(b.rewards),
                        DrawnFrom(env, index, input, pool, list, i, b, active))
    decreases |list| - i
  {
    hide SettleStep, DrawnBy, Entitled, PaidTotal;
    if i >= |list| {
      NothingEntitled(pool);
    } else {
      var (next, left) := SettleStep(env, index, input, pool, list[i], b, active).value;
      StepIsEntitled(env, index, input, pool, list[i], b, active);
      SettlementIsEntitled(env, index, input, pool, list, i + 1, next, left);
      var after := SettleFrom(env, index, input, pool, list, i, b, active).value;
      EntitledSum(pool, PaidTotal(next.rewards) - PaidTotal(b.rewards), DrawnBy(env, index, input, list[i], b, active),
                  PaidTotal(after.rewards) - PaidTotal(next.rewards), DrawnFrom(env, index, input, pool, list, i + 1, next, left));
    }
  }

  // ----- Settling one account leaves the data of all others -----

  /** The books list as many accounts, with the same data in every place but perhaps one. */
  ghost predicate SameDataBut(b: Book, c: Book, place: nat) {
    && |c.accounts| == |b.accounts|
    && forall k :: 0 <= k < |b.accounts| && k != place ==> c.accounts[k].account.data == b.accounts[k].account.data
  }

  lemma CreditKeepsData(env: Env, index: Index, b: Book, to: Address, lamports: nat, place: nat)
    requires CreditAccount(env, index, b, to, lamports).Some?
    ensures SameDataBut(b, CreditAccount(env, index, b, to, lamports).value, place)
  {
    hide ValidWithRent;
  }

  lemma PayKeepsData(env: Env, index: Index, input: Input, owner: Address, credits: nat, h: Held, p: Payout)
    requires Pay(env, index, input, owner, credits, h, p).Some?
    ensures var after := Pay(env, index, input, owner, credits, h, p).value;
            after.place == h.place && SameDataBut(h.book, after.book, h.place)
  {
    hide CreditAccount, Counted, Credited;
    var to := Destination(h.stake, p);
    if to != owner {
      CreditKeepsData(env, index, h.book, to, p.lamports, h.place);
    }
  }

  lemma {:induction false} PayAllKeepsData(
    env: Env, index: Index, input: Input, owner: Address, credits: nat, h: Held, ps: seq<Payout>)
    requires PayAll(env, index, input, owner, credits, h, ps).Some?
    ensures var after := PayAll(env, index, input, owner, credits, h, ps).value;
            after.place == h.place && SameDataBut(h.book, after.book, h.place)
  {
    hide Pay;
    if ps != [] {
      var front := PayAll(env, index, input, owner, credits, h, ps[..|ps| - 1]).value;
      PayAllKeepsData(env, index, input, owner, credits, h, ps[..|ps| - 1]);
      PayKeepsData(env, index, input, owner, credits, front, ps[|ps| - 1]);
    }
  }

  lemma WriteBackKeepsData(env: Env, h: Held)
    requires WriteBack(env, h).Some?
    ensures SameDataBut(h.book, WriteBack(env, h).value, h.place)
  {
    hide WithData;
  }

  lemma CommissionKeepsBook(input: Input, owner: Address, h: Held, commission: Word)
    requires Commissioned(input, owner, h, commission).Some?
    ensures var charged := Commissioned(input, owner, h, commission).value;
            charged.place == h.place && charged.book.accounts == h.book.accounts
  {
  }

  lemma RewardKeepsData(env: Env, index: Index, input: Input, pool: EpochPool, owner: Address, h: Held)
    requires RewardStep(env, index, input, pool, owner, h).Some?
    ensures SameDataBut(h.book, RewardStep(env, index, input, pool, owner, h).value, h.place)
  {
    hide VoteReward, Prorate, Payouts, PayAll, Commissioned, RewardCredits, WriteBack;
    var st := env.mature(h.stake, input.epoch).value;
    var credits := RewardCredits(st);
    var reward := VoteReward(env, input, pool, st, credits).value;
    var commission := Prorate(reward, st.commissionBps, BASIS_POINTS);
    CommissionFits(reward, st.commissionBps);
    CommissionKeepsBook(input, owner, h.(stake := st), commission);
    var charged := Commissioned(input, owner, h.(stake := st), commission).value;
    var payouts := Payouts(charged.stake, reward - commission, IsExact(input)).value;
    PayAllKeepsData(env, index, input, owner, credits, charged, payouts);
    var paid := PayAll(env, index, input, owner, credits, charged, payouts).value;
    var stake := paid.stake.(totalReward := paid.stake.totalReward + reward, voteCredits := 0, missedVotes := 0,
                             missedProposals := 0, lastRewardEpoch := input.epoch);
    WriteBackKeepsData(env, paid.(stake := stake));
  }

  lemma JailKeepsData(env: Env, input: Input, owner: Address, h: Held)
    requires JailStep(env, input, owner, h).Some?
    ensures SameDataBut(h.book, JailStep(env, input, owner, h).value, h.place)
  {
    hide WithData, PerformanceJailEpochs;
  }

  lemma SettleKeepsData(env: Env, index: Index, input: Input, pool: EpochPool, owner: Address, b: Book, active: nat)
    requires SettleStep(env, index, input, pool, owner, b, active).Some? && owner in index
    ensures SameDataBut(b, SettleStep(env, index, input, pool, owner, b, active).value.0, index[owner])
  {
    hide RewardStep, JailStep, ShouldJail;
    var h := Load(env, index, b, owner).value;
    if h.stake.lastRewardEpoch < input.epoch {
      if ShouldJail(h.stake, input.config) && active > input.config.minActive {
        JailKeepsData(env, input, owner, h);
      } else {
        RewardKeepsData(env, index, input, pool, owner, h);
      }
    }
  }

  /** The stake state an address is loaded with. */
  function StakeAt(env: Env, index: Index, b: Book, a: Address): Option<StakeState> {
    if a !in index || index[a] >= |b.accounts| then None else env.decode(b.accounts[index[a]].account.data)
  }

  lemma LoadsStakeAt(env: Env, index: Index, b: Book, a: Address)
    ensures Load(env, index, b, a).Some? <==> StakeAt(env, index, b, a).Some?
    ensures Load(env, index, b, a).Some? ==> Some(Load(env, index, b, a).value.stake) == StakeAt(env, index, b, a)
  {
  }

  /** Every address from place `i` of the list on has the stake state it had in the starting book. */
  ghost predicate AsInStart(env: Env, index: Index, start: Book, b: Book, list: seq<Address>, i: nat) {
    forall j :: i <= j < |list| ==> StakeAt(env, index, b, list[j]) == StakeAt(env, index, start, list[j])
  }

  ghost predicate Distinct(list: seq<Address>) {
    forall i, j :: 0 <= i < j < |list| ==> list[i] != list[j]
  }

  lemma SettleKeepsOthers(
    env: Env, index: Index, input: Input, pool: EpochPool, start: Book, list: seq<Address>, i: nat, b: Book, active: nat)
    requires Indexes(index, start.accounts) && Distinct(list) && i < |list|
    requires AsInStart(env, index, start, b, list, i)
    requires SettleStep(env, index, input, pool, list[i], b, active).Some?
    ensures AsInStart(env, index, start, SettleStep(env, index, input, pool, list[i], b, active).value.0, list, i + 1)
  {
    hide SettleStep, Distinct;
    assert list[i] in index by {
      SettledIsListed(env, index, input, pool, list[i], b, active);
    }
    SettleKeepsData(env, index, input, pool, list[i], b, active);
    var next := SettleStep(env, index, input, pool, list[i], b, active).value.0;
    forall j | i + 1 <= j < |list| ensures StakeAt(env, index, next, list[j]) == StakeAt(env, index, start, list[j]) {
      assert list[i] != list[j] by {
        assert Distinct(list);
        DistinctAt(list, i, j);
      }
      assert StakeAt(env, index, b, list[j]) == StakeAt(env, index, start, list[j]);
      if list[j] in index {
        assert start.accounts[index[list[i]]].address == list[i] && start.accounts[index[list[j]]].address == list[j];
      }
    }
  }

  lemma DistinctAt(list: seq<Address>, i: nat, j: nat)
    requires Distinct(list) && i < j < |list|
    ensures list[i] != list[j]
  {
  }

  lemma SettledIsListed(env: Env, index: Index, input: Input, pool: EpochPool, owner: Address, b: Book, active: nat)
    requires SettleStep(env, index, input, pool, owner, b, active).Some?
    ensures owner in index
  {
    hide RewardStep, JailStep, ShouldJail;
  }

  // ----- What the starting book says about the run -----

  predicate Unsettled(input: Input, st: Option<StakeState>) {
    st.Some? && st.value.lastRewardEpoch < input.epoch
  }

  predicate Flagged(input: Input, st: Option<StakeState>) {
    Unsettled(input, st) && ShouldJail(st.value, input.config)
  }

  lemma FlaggedIsActive(input: Input, st: Option<StakeState>)
    ensures Flagged(input, st) ==> st.value.status == Active
  {
  }

  /** Accounts flagged for jail among the first `i` of the list. */
  function FlaggedBefore(env: Env, index: Index, input: Input, list: seq<Address>, b: Book, i: nat): nat
    requires i <= |list|
  {
    if i == 0 then 0
    else
      FlaggedBefore(env, index, input, list, b, i - 1) +
      if Flagged(input, StakeAt(env, index, b, list[i - 1])) then 1 else 0
  }

  /** The active validators left when `flagged` of them were up for jail, and jailing stops at the minimum. */
  function ActiveLeft(active: nat, minActive: nat, flagged: nat): nat {
    if active >= minActive + flagged then active - flagged else if active < minActive then active else minActive
  }

  /** The weight of an account after maturing. */
  function MaturedWeight(env: Env, input: Input, st: Option<StakeState>): nat {
    if st.None? || env.mature(st.value, input.epoch).None? then 0
    else WeightOf(env, input, env.mature(st.value, input.epoch).value)
  }

  /** An account that draws on the pool without having been counted for it: it is not yet settled, has weight, and
      is not Active, or is flagged for jail but kept because those flagged before it used up the validators that may
      be jailed. Only the book at the start of the settlement is looked at. */
  predicate Uncounted(env: Env, index: Index, input: Input, list: seq<Address>, b: Book, active: nat, i: nat)
    requires i < |list|
  {
    var st := StakeAt(env, index, b, list[i]);
    && Unsettled(input, st) && MaturedWeight(env, input, st) > 0
    && (st.value.status != Active ||
        (Flagged(input, st) && active <= input.config.minActive + FlaggedBefore(env, index, input, list, b, i)))
  }

  /** The summed weight of the uncounted accounts from place `i` on. */
  function UncountedFrom(env: Env, index: Index, input: Input, list: seq<Address>, b: Book, active: nat, i: nat): nat
    decreases |list| - i
  {
    if i >= |list| then 0
    else
      UncountedFrom(env, index, input, list, b, active, i + 1) +
      if Uncounted(env, index, input, list, b, active, i) then MaturedWeight(env, input, StakeAt(env, index, b, list[i])) else 0
  }

  /** Maturing leaves the weight of an Active validator alone. */
  ghost predicate MaturingKeepsWeight(env: Env, input: Input) {
    forall st: StakeState :: st.status == Active && env.mature(st, input.epoch).Some? ==>
      WeightOf(env, input, env.mature(st, input.epoch).value) == WeightOf(env, input, st)
  }

  /** The weight one account adds to the count. */
  function CountedBy(env: Env, input: Input, st: Option<StakeState>): nat {
    if !Unsettled(input, st) || Flagged(input, st) || st.value.status != Active then 0 else WeightOf(env, input, st.value)
  }

  lemma WeightStep(env: Env, index: Index, input: Input, list: seq<Address>, i: nat, b: Book, weight: nat)
    requires i < |list| && WeightFrom(env, index, input, list, i, b, weight).Some?
    ensures WeightFrom(env, index, input, list, i, b, weight) ==
            WeightFrom(env, index, input, list, i + 1, b, weight + CountedBy(env, input, StakeAt(env, index, b, list[i])))
  {
    hide ShouldJail, RewardCredits, Weight;
    LoadsStakeAt(env, index, b, list[i]);
  }

  /** What an account draws in the run, told from the starting book. */
  lemma DrawnStep(
    env: Env, index: Index, input: Input, pool: EpochPool, start: Book, list: seq<Address>, i: nat, b: Book, active: nat, left: nat)
    requires i < |list| && MaturingKeepsWeight(env, input)
    requires StakeAt(env, index, b, list[i]) == StakeAt(env, index, start, list[i])
    requires left == ActiveLeft(active, input.config.minActive, FlaggedBefore(env, index, input, list, start, i))
    requires SettleStep(env, index, input, pool, list[i], b, left).Some?
    ensures var st := StakeAt(env, index, start, list[i]);
            DrawnBy(env, index, input, list[i], b, left) ==
            CountedBy(env, input, st) +
            if Uncounted(env, index, input, list, start, active, i) then MaturedWeight(env, input, st) else 0
    ensures SettleStep(env, index, input, pool, list[i], b, left).value.1 ==
            ActiveLeft(active, input.config.minActive, FlaggedBefore(env, index, input, list, start, i + 1))
  {
    hide RewardStep, JailStep, ShouldJail, WeightOf, Load, StakeAt;
    LoadsStakeAt(env, index, b, list[i]);
    var st := StakeAt(env, index, start, list[i]);
    var h := Load(env, index, b, list[i]).value;
    FlaggedIsActive(input, st);
    if st.value.lastRewardEpoch < input.epoch && !(Flagged(input, st) && left > input.config.minActive) {
      MaturedForReward(env, index, input, pool, list[i], h);
    }
  }

  /** The weight a settlement draws is the weight counted for it and the weight of the uncounted accounts. */
  lemma {:induction false} DrawnIsCountedAndUncounted(
    env: Env, index: Index, input: Input, pool: EpochPool, start: Book, list: seq<Address>, i: nat, b: Book,
    active: nat, left: nat, weight: nat)
    requires Indexes(index, start.accounts) && Distinct(list) && MaturingKeepsWeight(env, input) && i <= |list|
    requires AsInStart(env, index, start, b, list, i)
    requires left == ActiveLeft(active, input.config.minActive, FlaggedBefore(env, index, input, list, start, i))
    requires SettleFrom(env, index, input, pool, list, i, b, left).Some?
    requires WeightFrom(env, index, input, list, i, start, weight).Some?
    ensures weight + DrawnFrom(env, index, input, pool, list, i, b, left) ==
            WeightFrom(env, index, input, list, i, start, weight).value + UncountedFrom(env, index, input, list, start, active, i)
    decreases |list| - i
  {
    hide *;
    if i >= |list| {
      AtEnd(env, index, input, pool, start, list, i, b, active, left, weight);
    } else {
      OneStep(env, index, input, pool, start, list, i, b, active, left);
      var (next, after) := SettleStep(env, index, input, pool, list[i], b, left).value;
      SameInStart(env, index, start, b, list, i);
      DrawnStep(env, index, input, pool, start, list, i, b, active, left);
      WeightStep(env, index, input, list, i, start, weight);
      SettleKeepsOthers(env, index, input, pool, start, list, i, b, left);
      DrawnIsCountedAndUncounted(env, index, input, pool, start, list, i + 1, next, active, after,
                                 weight + CountedBy(env, input, StakeAt(env, index, start, list[i])));
    }
  }

  lemma AtEnd(
    env: Env, index: Index, input: Input, pool: EpochPool, start: Book, list: seq<Address>, i: nat, b: Book,
    active: nat, left: nat, weight: nat)
    requires i >= |list|
    ensures WeightFrom(env, index, input, list, i, start, weight) == Some(weight)
    ensures DrawnFrom(env, index, input, pool, list, i, b, left) == 0
    ensures UncountedFrom(env, index, input, list, start, active, i) == 0
  {
  }

  /** One step of the three recursions. */
  lemma OneStep(
    env: Env, index: Index, input: Input, pool: EpochPool, start: Book, list: seq<Address>, i: nat, b: Book, active: nat, left: nat)
    requires i < |list| && SettleFrom(env, index, input, pool, list, i, b, left).Some?
    ensures SettleStep(env, index, input, pool, list[i], b, left).Some?
    ensures var (next, after) := SettleStep(env, index, input, pool, list[i], b, left).value;
            && SettleFrom(env, index, input, pool, list, i + 1, next, after).Some?
            && DrawnFrom(env, index, input, pool, list, i, b, left) ==
               DrawnBy(env, index, input, list[i], b, left) + DrawnFrom(env, index, input, pool, list, i + 1, next, after)
            && UncountedFrom(env, index, input, list, start, active, i) ==
               UncountedFrom(env, index, input, list, start, active, i + 1) +
               if Uncounted(env, index, input, list, start, active, i) then MaturedWeight(env, input, StakeAt(env, index, start, list[i])) else 0
  {
    hide SettleStep, DrawnBy, Uncounted, MaturedWeight, StakeAt;
  }

  lemma SameInStart(env: Env, index: Index, start: Book, b: Book, list: seq<Address>, i: nat)
    requires AsInStart(env, index, start, b, list, i) && i < |list|
    ensures StakeAt(env, index, b, list[i]) == StakeAt(env, index, start, list[i])
  {
  }

  lemma {:induction false} NothingUncounted(
    env: Env, index: Index, input: Input, list: seq<Address>, b: Book, active: nat, i: nat)
    requires i <= |list|
    ensures UncountedFrom(env, index, input, list, b, active, i) == 0 <==>
            forall j :: i <= j < |list| ==> !Uncounted(env, index, input, list, b, active, j)
    decreases |list| - i
  {
    if i < |list| {
      UncountedHasWeight(env, index, input, list, b, active, i);
      hide Uncounted, MaturedWeight;
      NothingUncounted(env, index, input, list, b, active, i + 1);
    }
  }

  lemma UncountedHasWeight(env: Env, index: Index, input: Input, list: seq<Address>, b: Book, active: nat, i: nat)
    requires i < |list|
    ensures Uncounted(env, index, input, list, b, active, i) ==> MaturedWeight(env, input, StakeAt(env, index, b, list[i])) > 0
  {
  }

  // ----- The list of stake accounts repeats no address -----

  lemma {:induction false} InsertKeepsDistinct(a: Address, list: seq<Address>)
    requires Distinct(list) && a !in list
    ensures Distinct(InsertAddress(a, list))
    ensures forall x :: x in InsertAddress(a, list) <==> x == a || x in list
  {
    if list != [] && a > list[0] {
      var rest := InsertAddress(a, list[1..]);
      InsertKeepsDistinct(a, list[1..]);
      assert list[0] !in rest;
      assert forall x :: x in list <==> x == list[0] || x in list[1..];
    }
  }

  lemma {:induction false} StakeAddressesDistinct(s: seq<Entry>)
    requires Unique(s)
    ensures Distinct(StakeAddresses(s))
    ensures forall a :: a in StakeAddresses(s) ==> exists k :: 0 <= k < |s| && s[k].address == a
  {
    if s != [] {
      var n := |s| - 1;
      StakeAddressesDistinct(s[..n]);
      assert s[n].address !in StakeAddresses(s[..n]);
      InsertKeepsDistinct(s[n].address, StakeAddresses(s[..n]));
      forall a | a in StakeAddresses(s) ensures exists k :: 0 <= k < |s| && s[k].address == a {
        if a != s[n].address {
          var k :| 0 <= k < n && s[..n][k].address == a;
          assert s[k].address == a;
        } else {
          assert s[n].address == a;
        }
      }
    }
  }

  // ----- The bound -----

  /** No stake account of the book is uncounted. */
  ghost predicate AllCounted(env: Env, index: Index, input: Input, b: Book, active: nat) {
    var list := StakeAddresses(b.accounts);
    forall i :: 0 <= i < |list| ==> !Uncounted(env, index, input, list, b, active, i)
  }

  /** The settlement of an epoch, against the pool it draws on. The weight drawn exceeds the weight counted by exactly
      that of the uncounted accounts, so it stays within the count exactly when the starting book has none; and then
      the payments stay within the pool. */
  lemma EpochPaysAtMostPool(env: Env, index: Index, input: Input, b: Book)
    requires input.config.lamportsPerCredit == 0 && input.epoch != 0 && SettleAll(env, index, input, b).Some?
    requires Unique(b.accounts) && Indexes(index, b.accounts) && MaturingKeepsWeight(env, input)
    ensures var list := StakeAddresses(b.accounts);
            var active := ActiveFrom(env, index, input, list, 0, b, 0);
            var weight := WeightFrom(env, index, input, list, 0, b, 0);
            && active.Some? && weight.Some?
            && var pool := PoolOf(env, input, weight.value, b);
            && pool.Some? && pool.value.weight == weight.value
            && var after, drawn := SettleAll(env, index, input, b).value, DrawnFrom(env, index, input, pool.value, list, 0, b, active.value);
            && drawn == weight.value + UncountedFrom(env, index, input, list, b, active.value, 0)
            && (drawn <= weight.value <==> AllCounted(env, index, input, b, active.value))
            && PaidTotal(b.rewards) <= PaidTotal(after.rewards)
            && (AllCounted(env, index, input, b, active.value) ==>
                  PaidTotal(after.rewards) <= PaidTotal(b.rewards) + pool.value.lamports)
  {
    hide SettleFrom, ActiveFrom, WeightFrom, StakeAddresses, DrawnFrom, UncountedFrom, Uncounted, Entitled, PaidTotal;
    hide MaturingKeepsWeight, Unique, Indexes, Distinct;
    var list := StakeAddresses(b.accounts);
    var active := ActiveFrom(env, index, input, list, 0, b, 0).value;
    var pool := PoolOf(env, input, WeightFrom(env, index, input, list, 0, b, 0).value, b).value;
    StakeAddressesDistinct(b.accounts);
    DrawnIsCountedAndUncounted(env, index, input, pool, b, list, 0, b, active, active, 0);
    NothingUncounted(env, index, input, list, b, active, 0);
    SettlementIsEntitled(env, index, input, pool, list, 0, b, active);
    var after := SettleAll(env, index, input, b).value;
    var drawn := DrawnFrom(env, index, input, pool, list, 0, b, active);
    if drawn <= pool.weight {
      EntitledFits(pool, PaidTotal(after.rewards) - PaidTotal(b.rewards), drawn);
    }
  }
}
