/** Two settlements that pay more than the pool: an exiting validator, and one that is flagged for jail but kept. */
module PoolOverdrawn {

  import opened Arithmetic
  import opened BlockRewards
  import opened Bytes
  import opened ChainState
  import opened RewardPool
  import opened Rewards
  import opened StakePayout
  import opened SupplyAccounting
  import opened Uint64
  import opened Wrappers

  // ----- A validator that is its own staker, without commission -----

  lemma WholeShare(pool: nat, weight: nat)
    requires weight > 0
    ensures Fraction(pool, weight, weight) == pool
  {
    var f := Fraction(pool, weight, weight);
    FloorBracket(pool * weight, weight);
    CancelFactor(f, pool, weight);
    Distribute(f, 1, weight);
    CancelStrict(pool, f + 1, weight);
  }

  lemma SolePayout(st: StakeState, reward: Word)
    requires st.delegations == [] && st.active > 0 && reward > 0
    ensures Payouts(st, reward, true) == Some([Payout(None, reward)])
  {
    hide Fraction;
    WholeShare(reward, st.active);
    assert Share(reward, st.active, st.active, true) == reward;
    PaidOne(Payout(None, reward));
    assert [Payout(None, reward)] + [] == [Payout(None, reward)];
  }

  /** What settling such a validator leaves to be written back. */
  function SoleSettled(input: Input, owner: Address, h: Held, reward: Word): Held
    requires h.stake.selfReward + reward <= MAX && h.stake.totalReward + reward <= MAX
  {
    var record := Reward(VotePayout, h.stake.validatorId, owner, h.stake.staker, input.epoch, input.slot, reward, RewardCredits(h.stake));
    Held(
      Record(h.book, record), h.place, h.account.(lamports := h.account.lamports + reward),
      h.stake.(selfReward := h.stake.selfReward + reward, totalReward := h.stake.totalReward + reward, voteCredits := 0,
               missedVotes := 0, missedProposals := 0, lastRewardEpoch := input.epoch))
  }

  lemma SoleReward(env: Env, index: Index, input: Input, pool: EpochPool, owner: Address, h: Held, reward: Word)
    requires env.mature(h.stake, input.epoch) == Some(h.stake) && IsExact(input)
    requires h.stake.commissionBps == 0 && h.stake.delegations == [] && h.stake.staker == owner && h.stake.active > 0
    requires VoteReward(env, input, pool, h.stake, RewardCredits(h.stake)) == Some(reward) && reward > 0
    requires h.account.lamports + reward <= MAX && h.stake.selfReward + reward <= MAX && h.stake.totalReward + reward <= MAX
    ensures RewardStep(env, index, input, pool, owner, h) == WriteBack(env, SoleSettled(input, owner, h, reward))
  {
    hide VoteReward, Payouts, WriteBack, RewardCredits;
    SolePayout(h.stake, reward);
    PayOne(env, index, input, owner, RewardCredits(h.stake), h, Payout(None, reward));
  }

  lemma PayOne(env: Env, index: Index, input: Input, owner: Address, credits: nat, h: Held, p: Payout)
    ensures PayAll(env, index, input, owner, credits, h, [p]) == Pay(env, index, input, owner, credits, h, p)
  {
    assert [p][..0] == [];
    assert PayAll(env, index, input, owner, credits, h, []) == Some(h);
  }

  // ----- Two such validators -----

  const STAKE: Word := 20_000_000
  const BALANCE: Word := 30_000_000

  function Validator(id: nat, owner: Address, status: Status, missedVotes: Word): StakeState {
    StakeState(id, owner, status, STAKE, 0, 0, [], 0, 0, 0, 0, 1, missedVotes, 0, 0, 0, 0, 0, 0, 0, 0)
  }

  function FirstOne(): StakeState {
    Validator(1, 8, Active, 0)
  }

  function Rewarded(st: StakeState): StakeState {
    st.(selfReward := 10, totalReward := 10, voteCredits := 0, missedVotes := 0, missedProposals := 0, lastRewardEpoch := 4)
  }

  /** A codec of the four states that occur, one byte each. */
  function EncodePair(second: StakeState, st: StakeState): Option<Bytes> {
    if st == FirstOne() then Some([0])
    else if st == second then Some([1])
    else if st == Rewarded(FirstOne()) then Some([2])
    else if st == Rewarded(second) then Some([3])
    else None
  }

  function DecodePair(second: StakeState, data: Bytes): Option<StakeState> {
    if data == [0] then Some(FirstOne())
    else if data == [1] then Some(second)
    else if data == [2] then Some(Rewarded(FirstOne()))
    else if data == [3] then Some(Rewarded(second))
    else None
  }

  lemma PairCodec(second: StakeState, st: StakeState)
    requires EncodePair(second, st).Some?
    ensures DecodePair(second, EncodePair(second, st).value) == Some(st)
  {
  }

  /** The pool of an epoch is 10 lamports; an exit announced in the epoch leaves the stake in force until its end. */
  function PairEnv(second: StakeState): Env {
    Env(data => DecodePair(second, data), st => EncodePair(second, st), n => Some(5),
        (st: StakeState, e: nat) => Some(st),
        (st: StakeState, e: nat) => Some(if st.status == Jailed then 0 else st.active),
        (st: StakeState) => Some((st, false)), (st: StakeState, amount: Word) => None,
        (supply: nat, slots: nat) => Some(10))
  }

  /** One missed vote flags for jail; two validators must stay active. */
  function PairInput(): Input {
    Input(64, 63, 9, 4, 64, 79, Member(1, 8), [], slot => None, [], [], [],
          Config(1, 0, 0, 10, 1, 1, 1, 1, 2, 5000, 1, true))
  }

  function Stored(data: Bytes, lamports: nat): Account {
    Account(lamports, data, STAKE_PROGRAM, false)
  }

  function PairBook(): Book {
    Book([Entry(8, Stored([0], BALANCE)), Entry(9, Stored([1], BALANCE))], [], [])
  }

  const PAIR_INDEX: Index := map[8 := 0, 9 := 1]

  function Payment(id: nat, owner: Address): Reward {
    Reward(VotePayout, id, owner, owner, 4, 64, 10, 1)
  }

  function HalfSettled(): Book {
    Book([Entry(8, Stored([2], BALANCE + 10)), Entry(9, Stored([1], BALANCE))], [Payment(1, 8)], [])
  }

  function AllSettled(): Book {
    Book([Entry(8, Stored([2], BALANCE + 10)), Entry(9, Stored([3], BALANCE + 10))], [Payment(1, 8), Payment(2, 9)], [])
  }

  /** The second validator, in any state in which it is neither counted for the pool nor jailed. */
  predicate Second(st: StakeState) {
    st == Validator(2, 9, Exiting, 0) || st == Validator(2, 9, Active, 1)
  }

  lemma PairAddresses()
    ensures StakeAddresses(PairBook().accounts) == [8, 9]
    ensures Supply(PairBook().accounts) == 2 * BALANCE
  {
    var s := PairBook().accounts;
    assert s[..1] == [s[0]] && s[..1][..0] == [];
    assert StakeAddresses(s[..1][..0]) == [] && Supply(s[..1][..0]) == 0;
    assert StakeAddresses(s[..1]) == InsertAddress(8, []) == [8];
    assert InsertAddress(9, [8]) == [8] + InsertAddress(9, [8][1..]);
    assert Supply(s[..1]) == BALANCE;
  }

  lemma PairLoads(second: StakeState)
    requires Second(second)
    ensures var env := PairEnv(second);
            && Load(env, PAIR_INDEX, PairBook(), 8) == Some(Held(PairBook(), 0, Stored([0], BALANCE), FirstOne()))
            && Load(env, PAIR_INDEX, PairBook(), 9) == Some(Held(PairBook(), 1, Stored([1], BALANCE), second))
            && Load(env, PAIR_INDEX, HalfSettled(), 9) == Some(Held(HalfSettled(), 1, Stored([1], BALANCE), second))
  {
  }

  lemma PairCounts(second: StakeState)
    requires Second(second)
    ensures WeightFrom(PairEnv(second), PAIR_INDEX, PairInput(), [8, 9], 0, PairBook(), 0) == Some(STAKE)
    ensures ActiveFrom(PairEnv(second), PAIR_INDEX, PairInput(), [8, 9], 0, PairBook(), 0) ==
            Some(if second.status == Active then 2 else 1)
  {
    hide Load, DecodePair, EncodePair;
    PairLoads(second);
  }

  lemma PairReward(second: StakeState, st: StakeState)
    requires Second(second) && (st == FirstOne() || st == second)
    ensures RewardCredits(st) == 1
    ensures VoteReward(PairEnv(second), PairInput(), EpochPool(10, STAKE), st, 1) == Some(10)
  {
    hide Fraction, DecodePair, EncodePair;
    WholeShare(10, STAKE);
    assert Weight(STAKE, 1) == STAKE;
  }

  /** What the settlement asks of a state: its own staker, without commission, delegations or earlier rewards. */
  predicate Sole(st: StakeState, owner: Address) {
    && st.commissionBps == 0 && st.delegations == [] && st.staker == owner && st.active > 0
    && st.selfReward == 0 && st.totalReward == 0 && st.lastRewardEpoch == 0
  }

  lemma PairIsSole(second: StakeState)
    requires Second(second)
    ensures Sole(FirstOne(), 8) && Sole(second, 9) && IsExact(PairInput())
    ensures forall st, e :: PairEnv(second).mature(st, e) == Some(st)
    ensures PairInput().epoch == 4 && PairInput().config.minActive == 2 && !ShouldJail(FirstOne(), PairInput().config)
  {
    hide DecodePair, EncodePair;
  }

  lemma SoleFits(h: Held, owner: Address, data: Bytes)
    requires Sole(h.stake, owner) && h.account == Stored(data, BALANCE)
    ensures h.account.lamports + 10 <= MAX && h.stake.selfReward + 10 <= MAX && h.stake.totalReward + 10 <= MAX
    ensures h.stake.commissionBps == 0 && h.stake.delegations == [] && h.stake.staker == owner && h.stake.active > 0
    ensures h.stake.lastRewardEpoch < 4
  {
  }

  lemma SettlesAs(env: Env, index: Index, input: Input, pool: EpochPool, owner: Address, b: Book, active: nat, h: Held, after: Book)
    requires Load(env, index, b, owner) == Some(h) && h.stake.lastRewardEpoch < input.epoch
    requires !(ShouldJail(h.stake, input.config) && active > input.config.minActive)
    requires RewardStep(env, index, input, pool, owner, h) == Some(after)
    ensures SettleStep(env, index, input, pool, owner, b, active) == Some((after, active))
  {
    hide Load, RewardStep, ShouldJail;
  }

  lemma FirstSettles(second: StakeState, active: nat)
    requires Second(second)
    ensures SettleStep(PairEnv(second), PAIR_INDEX, PairInput(), EpochPool(10, STAKE), 8, PairBook(), active) == Some((HalfSettled(), active))
  {
    hide *;
    var env, input, pool := PairEnv(second), PairInput(), EpochPool(10, STAKE);
    var h := Held(PairBook(), 0, Stored([0], BALANCE), FirstOne());
    PairLoads(second);
    PairIsSole(second);
    PairReward(second, FirstOne());
    SoleFits(h, 8, [0]);
    SoleReward(env, PAIR_INDEX, input, pool, 8, h, 10);
    FirstWrites(second);
    SettlesAs(env, PAIR_INDEX, input, pool, 8, PairBook(), active, h, HalfSettled());
  }

  /** Writing the settled validator back: ten lamports more, the new data, and the record. */
  lemma SettledWrites(env: Env, input: Input, owner: Address, h: Held, data: Bytes, account: Account)
    requires h.stake.selfReward == 0 && h.stake.totalReward == 0 && input.epoch == 4
    requires h.stake.voteCredits == 1 && h.stake.missedProposals == 0 && h.stake.staker == owner
    requires h.place < |h.book.accounts| && env.encode(Rewarded(h.stake)) == Some(data)
    requires WithData(env, h.account.(lamports := h.account.lamports + 10), data) == Some(account)
    ensures WriteBack(env, SoleSettled(input, owner, h, 10)) ==
            Some(Record(Put(h.book, h.place, account), Reward(VotePayout, h.stake.validatorId, owner, owner, 4, input.slot, 10, 1)))
  {
    hide WithData;
    assert SoleSettled(input, owner, h, 10).stake == Rewarded(h.stake);
  }

  lemma PairEncodes(second: StakeState)
    requires Second(second)
    ensures PairEnv(second).encode(Rewarded(FirstOne())) == Some([2])
    ensures PairEnv(second).encode(Rewarded(second)) == Some([3])
  {
    assert Rewarded(FirstOne()).validatorId == 1 && Rewarded(second).validatorId == 2;
    assert Rewarded(FirstOne()).voteCredits == 0 && Rewarded(second).voteCredits == 0;
  }

  lemma PairFits(second: StakeState, before: Bytes, data: Bytes)
    requires |before| == 1 && |data| == 1
    ensures WithData(PairEnv(second), Stored(before, BALANCE + 10), data) == Some(Stored(data, BALANCE + 10))
  {
    hide DecodePair, EncodePair;
  }

  lemma FirstWrites(second: StakeState)
    requires Second(second)
    ensures WriteBack(PairEnv(second), SoleSettled(PairInput(), 8, Held(PairBook(), 0, Stored([0], BALANCE), FirstOne()), 10)) ==
            Some(HalfSettled())
  {
    hide WithData, WriteBack, EncodePair, DecodePair, Rewarded, SoleSettled;
    var h := Held(PairBook(), 0, Stored([0], BALANCE), FirstOne());
    PairEncodes(second);
    PairFits(second, [0], [2]);
    SettledWrites(PairEnv(second), PairInput(), 8, h, [2], Stored([2], BALANCE + 10));
    assert [] + [Payment(1, 8)] == [Payment(1, 8)];
    assert PairBook().accounts[0 := Entry(8, Stored([2], BALANCE + 10))] == HalfSettled().accounts;
  }

  lemma SecondSettles(second: StakeState, active: nat)
    requires Second(second) && active <= 2
    ensures SettleStep(PairEnv(second), PAIR_INDEX, PairInput(), EpochPool(10, STAKE), 9, HalfSettled(), active) == Some((AllSettled(), active))
  {
    hide *;
    var env, input, pool := PairEnv(second), PairInput(), EpochPool(10, STAKE);
    var h := Held(HalfSettled(), 1, Stored([1], BALANCE), second);
    PairLoads(second);
    PairIsSole(second);
    PairReward(second, second);
    SoleFits(h, 9, [1]);
    SoleReward(env, PAIR_INDEX, input, pool, 9, h, 10);
    SecondWrites(second);
    SettlesAs(env, PAIR_INDEX, input, pool, 9, HalfSettled(), active, h, AllSettled());
  }

  lemma SecondWrites(second: StakeState)
    requires Second(second)
    ensures Sole(second, 9) && second.voteCredits == 1
    ensures WriteBack(PairEnv(second), SoleSettled(PairInput(), 9, Held(HalfSettled(), 1, Stored([1], BALANCE), second), 10)) ==
            Some(AllSettled())
  {
    hide WithData, WriteBack, EncodePair, DecodePair, Rewarded, SoleSettled;
    var h := Held(HalfSettled(), 1, Stored([1], BALANCE), second);
    PairEncodes(second);
    PairFits(second, [1], [3]);
    SettledWrites(PairEnv(second), PairInput(), 9, h, [3], Stored([3], BALANCE + 10));
    SecondBook();
  }

  lemma SecondBook()
    ensures Record(Put(HalfSettled(), 1, Stored([3], BALANCE + 10)), Payment(2, 9)) == AllSettled()
  {
    assert [Payment(1, 8)] + [Payment(2, 9)] == [Payment(1, 8), Payment(2, 9)];
    assert HalfSettled().accounts[1 := Entry(9, Stored([3], BALANCE + 10))] == AllSettled().accounts;
  }

  lemma PairSettles(second: StakeState)
    requires Second(second)
    ensures SettleAll(PairEnv(second), PAIR_INDEX, PairInput(), PairBook()) == Some(AllSettled())
    ensures PoolOf(PairEnv(second), PairInput(), STAKE, PairBook()) == Some(EpochPool(10, STAKE))
  {
    hide StakeAddresses, ActiveFrom, WeightFrom, SettleStep, Supply, DecodePair, EncodePair;
    var env, input, pool := PairEnv(second), PairInput(), EpochPool(10, STAKE);
    var active := if second.status == Active then 2 else 1;
    PairAddresses();
    PairCounts(second);
    FirstSettles(second, active);
    SecondSettles(second, active);
    assert SettleFrom(env, PAIR_INDEX, input, pool, [8, 9], 2, AllSettled(), active) == Some(AllSettled());
    assert SettleFrom(env, PAIR_INDEX, input, pool, [8, 9], 1, HalfSettled(), active) == Some(AllSettled());
  }

  lemma PairPaid()
    ensures PaidTotal(AllSettled().rewards) == 20 && PaidTotal(PairBook().rewards) == 0
  {
    RecordAppended([], Payment(1, 8));
    RecordAppended([Payment(1, 8)], Payment(2, 9));
    assert [] + [Payment(1, 8)] == [Payment(1, 8)] && [Payment(1, 8)] + [Payment(2, 9)] == AllSettled().rewards;
  }

  /** The settlement of the two validators pays 20 lamports out of a pool of 10. */
  ghost predicate Overdrawn(second: StakeState) {
    var env, input, b := PairEnv(second), PairInput(), PairBook();
    && SettleAll(env, PAIR_INDEX, input, b).Some?
    && WeightFrom(env, PAIR_INDEX, input, StakeAddresses(b.accounts), 0, b, 0) == Some(STAKE)
    && PoolOf(env, input, STAKE, b) == Some(EpochPool(10, STAKE))
    && PaidTotal(b.rewards) == 0 && PaidTotal(SettleAll(env, PAIR_INDEX, input, b).value.rewards) == 20
    && Unique(b.accounts) && Indexes(PAIR_INDEX, b.accounts) && MaturingKeepsWeight(env, input)
  }

  lemma PairOverdraws(second: StakeState)
    requires Second(second)
    ensures Overdrawn(second)
  {
    hide SettleAll, WeightFrom, PoolOf, StakeAddresses, PaidTotal, WeightOf, DecodePair, EncodePair;
    PairSettles(second);
    PairAddresses();
    PairCounts(second);
    PairPaid();
  }

  /** As it must be, the second validator is uncounted. */
  lemma PairUncounted(second: StakeState)
    requires Second(second)
    ensures !AllCounted(PairEnv(second), PAIR_INDEX, PairInput(), PairBook(), if second.status == Active then 2 else 1)
  {
    hide *;
    var env, input, b := PairEnv(second), PairInput(), PairBook();
    PairOverdraws(second);
    OverdrawnFacts(second);
    PairAddresses();
    PairCounts(second);
    EpochPaysAtMostPool(env, PAIR_INDEX, input, b);
  }

  lemma OverdrawnFacts(second: StakeState)
    requires Overdrawn(second)
    ensures var env, input, b := PairEnv(second), PairInput(), PairBook();
            && input.config.lamportsPerCredit == 0 && input.epoch != 0 && SettleAll(env, PAIR_INDEX, input, b).Some?
            && Unique(b.accounts) && Indexes(PAIR_INDEX, b.accounts) && MaturingKeepsWeight(env, input)
            && PoolOf(env, input, STAKE, b) == Some(EpochPool(10, STAKE))
            && PaidTotal(b.rewards) == 0 && PaidTotal(SettleAll(env, PAIR_INDEX, input, b).value.rewards) == 20
  {
    hide SettleAll, WeightFrom, PoolOf, StakeAddresses, PaidTotal, MaturingKeepsWeight, DecodePair, EncodePair;
  }

  /** A validator that announced its exit in the epoch is paid out of a pool it was not counted for; nobody is flagged. */
  lemma ExitingOverdraws()
    ensures Overdrawn(Validator(2, 9, Exiting, 0))
    ensures !ShouldJail(FirstOne(), PairInput().config) && !ShouldJail(Validator(2, 9, Exiting, 0), PairInput().config)
    ensures !AllCounted(PairEnv(Validator(2, 9, Exiting, 0)), PAIR_INDEX, PairInput(), PairBook(), 1)
  {
    hide Overdrawn, AllCounted;
    PairOverdraws(Validator(2, 9, Exiting, 0));
    PairUncounted(Validator(2, 9, Exiting, 0));
  }

  /** So is a validator flagged for jail that is kept so that enough stay active. */
  lemma KeptOverdraws()
    ensures Overdrawn(Validator(2, 9, Active, 1))
    ensures ShouldJail(Validator(2, 9, Active, 1), PairInput().config)
    ensures !AllCounted(PairEnv(Validator(2, 9, Active, 1)), PAIR_INDEX, PairInput(), PairBook(), 2)
  {
    hide Overdrawn, AllCounted;
    PairOverdraws(Validator(2, 9, Active, 1));
    PairUncounted(Validator(2, 9, Active, 1));
  }
}
