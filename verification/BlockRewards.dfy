/** ApplyBlockRewards: the reward steps of a block, one loop after another. */
module BlockRewards {

  import opened ChainState
  import opened RewardRun
  import opened Rewards
  import opened StakePayout
  import opened SupplyAccounting
  import opened Uint64
  import opened Wrappers

  // ----- Stake accounts by address -----

  function InsertAddress(a: Address, list: seq<Address>): seq<Address> {
    if list == [] || a <= list[0] then [a] + list else [list[0]] + InsertAddress(a, list[1..])
  }

  /** The stake accounts that hold data, in ascending order of address. */
  function StakeAddresses(s: seq<Entry>): seq<Address> {
    if s == [] then []
    else
      var e := s[|s| - 1];
      var front := StakeAddresses(s[..|s| - 1]);
      if e.account.owner == STAKE_PROGRAM && e.account.data != [] then InsertAddress(e.address, front) else front
  }

  // ----- The loops, from any point to their end -----

  function MissedFrom(env: Env, index: Index, input: Input, slot: nat, b: Book): Option<Book>
    decreases input.slot - slot
  {
    if slot >= input.slot then Some(b)
    else
      var next := MissedStep(env, index, input, slot, b);
      if next.None? then None else MissedFrom(env, index, input, slot + 1, next.value)
  }

  function MembersFrom(env: Env, index: Index, input: Input, qc: RewardQC, i: nat, b: Book): Option<Book>
    decreases |input.members| - i
  {
    if i >= |input.members| then Some(b)
    else
      var next := VoteCreditStep(env, index, input, qc, input.members[i], b);
      if next.None? then None else MembersFrom(env, index, input, qc, i + 1, next.value)
  }

  function CreditsFrom(env: Env, index: Index, input: Input, i: nat, b: Book): Option<Book>
    decreases |input.qcs| - i
  {
    if i >= |input.qcs| then Some(b)
    else if !Eligible(input.qcs[i], input) then CreditsFrom(env, index, input, i + 1, b)
    else
      var next := MembersFrom(env, index, input, input.qcs[i], 0, b);
      if next.None? then None else CreditsFrom(env, index, input, i + 1, next.value)
  }

  function OffencesFrom(env: Env, index: Index, input: Input, i: nat, b: Book): Option<Book>
    decreases |input.offences| - i
  {
    if i >= |input.offences| then Some(b)
    else
      var next := SlashStep(env, index, input, input.offences[i], b);
      if next.None? then None else OffencesFrom(env, index, input, i + 1, next.value)
  }

  function NormalizeFrom(env: Env, index: Index, list: seq<Address>, i: nat, b: Book): Option<Book>
    decreases |list| - i
  {
    if i >= |list| then Some(b)
    else
      var next := NormalizeStep(env, index, list[i], b);
      if next.None? then None else NormalizeFrom(env, index, list, i + 1, next.value)
  }

  function SettleFrom(
    env: Env, index: Index, input: Input, pool: EpochPool, list: seq<Address>, i: nat, b: Book, active: nat): Option<Book>
    decreases |list| - i
  {
    if i >= |list| then Some(b)
    else
      var next := SettleStep(env, index, input, pool, list[i], b, active);
      if next.None? then None else SettleFrom(env, index, input, pool, list, i + 1, next.value.0, next.value.1)
  }

  /** Active validators with stake in force, counted from place `i` on. */
  function ActiveFrom(env: Env, index: Index, input: Input, list: seq<Address>, i: nat, b: Book, count: nat): Option<nat>
    decreases |list| - i
  {
    if i >= |list| then Some(count)
    else
      var h := Load(env, index, b, list[i]);
      if h.None? then None
      else if h.value.stake.status != Active then ActiveFrom(env, index, input, list, i + 1, b, count)
      else
        var effective := env.effectiveStake(h.value.stake, input.epoch);
        if effective.None? then None
        else ActiveFrom(env, index, input, list, i + 1, b, if effective.value == 0 then count else count + 1)
  }

  /** The summed weight of the validators an epoch's pool is shared among. */
  function WeightFrom(env: Env, index: Index, input: Input, list: seq<Address>, i: nat, b: Book, weight: nat): Option<nat>
    decreases |list| - i
  {
    if i >= |list| then Some(weight)
    else
      var h := Load(env, index, b, list[i]);
      if h.None? then None
      else
        var st := h.value.stake;
        if st.lastRewardEpoch >= input.epoch || ShouldJail(st, input.config) || RewardCredits(st) == 0 || st.status != Active then
          WeightFrom(env, index, input, list, i + 1, b, weight)
        else
          var effective := env.effectiveStake(st, input.epoch);
          if effective.None? then None
          else WeightFrom(env, index, input, list, i + 1, b, weight + Weight(effective.value, RewardCredits(st)))
  }

  function PoolOf(env: Env, input: Input, weight: nat, b: Book): Option<EpochPool> {
    if weight == 0 || input.config.lamportsPerCredit != 0 then Some(EpochPool(0, weight))
    else if Supply(b.accounts) > MAX || input.endSlot < input.startSlot then None
    else
      var lamports := env.inflation(Supply(b.accounts), input.endSlot - input.startSlot + 1);
      if lamports.None? then None else Some(EpochPool(lamports.value, weight))
  }

  // ----- The steps of a block -----

  function MissedAll(env: Env, index: Index, input: Input, b: Book): Option<Book> {
    if input.parentSlot == 0 then Some(b) else MissedFrom(env, index, input, input.parentSlot + 1, b)
  }

  function NormalizeAll(env: Env, index: Index, b: Book): Option<Book> {
    NormalizeFrom(env, index, StakeAddresses(b.accounts), 0, b)
  }

  function SettleAll(env: Env, index: Index, input: Input, b: Book): Option<Book> {
    if input.epoch == 0 then Some(b)
    else
      var list := StakeAddresses(b.accounts);
      var active := ActiveFrom(env, index, input, list, 0, b, 0);
      var weight := WeightFrom(env, index, input, list, 0, b, 0);
      if active.None? || weight.None? then None
      else
        var pool := PoolOf(env, input, weight.value, b);
        if pool.None? then None else SettleFrom(env, index, input, pool.value, list, 0, b, active.value)
  }

  function Then(first: Option<Book>, step: Book -> Option<Book>): Option<Book> {
    if first.None? then None else step(first.value)
  }

  function AllSteps(env: Env, index: Index, input: Input, b: Book): Option<Book> {
    var fees := LeaderFeeStep(env, index, input, b);
    var missed := Then(fees, x => MissedAll(env, index, input, x));
    var credited := Then(missed, x => CreditsFrom(env, index, input, 0, x));
    var slashed := Then(credited, x => OffencesFrom(env, index, input, 0, x));
    var normalized := Then(slashed, x => NormalizeAll(env, index, x));
    Then(normalized, x => SettleAll(env, index, input, x))
  }

  predicate ValidInput(input: Input) {
    && input.height != 0 && input.slot != 0 && input.leader.id != 0 && input.leader.account != 0
    && |input.qcs| <= MAX_REWARD_QCS && |input.offences| <= MAX_EVIDENCE && input.config.policiesValid
  }

  // ----- Balance over the loops -----

  lemma {:induction false} MissedFromSound(env: Env, start: seq<Entry>, index: Index, input: Input, slot: nat, b: Book)
    requires BookSound(start, index, b) && MissedFrom(env, index, input, slot, b).Some?
    ensures BookSound(start, index, MissedFrom(env, index, input, slot, b).value)
    decreases input.slot - slot
  {
    hide BookSound, MissedStep;
    if slot < input.slot {
      MissedSound(env, start, index, input, slot, b);
      MissedFromSound(env, start, index, input, slot + 1, MissedStep(env, index, input, slot, b).value);
    }
  }

  lemma {:induction false} MembersFromSound(env: Env, start: seq<Entry>, index: Index, input: Input, qc: RewardQC, i: nat, b: Book)
    requires BookSound(start, index, b) && MembersFrom(env, index, input, qc, i, b).Some?
    ensures BookSound(start, index, MembersFrom(env, index, input, qc, i, b).value)
    decreases |input.members| - i
  {
    hide BookSound, VoteCreditStep;
    if i < |input.members| {
      VoteCreditSound(env, start, index, input, qc, input.members[i], b);
      MembersFromSound(env, start, index, input, qc, i + 1, VoteCreditStep(env, index, input, qc, input.members[i], b).value);
    }
  }

  lemma {:induction false} CreditsFromSound(env: Env, start: seq<Entry>, index: Index, input: Input, i: nat, b: Book)
    requires BookSound(start, index, b) && CreditsFrom(env, index, input, i, b).Some?
    ensures BookSound(start, index, CreditsFrom(env, index, input, i, b).value)
    decreases |input.qcs| - i
  {
    hide BookSound, MembersFrom;
    if i < |input.qcs| {
      if Eligible(input.qcs[i], input) {
        MembersFromSound(env, start, index, input, input.qcs[i], 0, b);
        CreditsFromSound(env, start, index, input, i + 1, MembersFrom(env, index, input, input.qcs[i], 0, b).value);
      } else {
        CreditsFromSound(env, start, index, input, i + 1, b);
      }
    }
  }

  lemma {:induction false} OffencesFromSound(env: Env, start: seq<Entry>, index: Index, input: Input, i: nat, b: Book)
    requires BookSound(start, index, b) && OffencesFrom(env, index, input, i, b).Some?
    ensures BookSound(start, index, OffencesFrom(env, index, input, i, b).value)
    decreases |input.offences| - i
  {
    hide BookSound, SlashStep;
    if i < |input.offences| {
      SlashSound(env, start, index, input, input.offences[i], b);
      OffencesFromSound(env, start, index, input, i + 1, SlashStep(env, index, input, input.offences[i], b).value);
    }
  }

  lemma {:induction false} NormalizeFromSound(env: Env, start: seq<Entry>, index: Index, list: seq<Address>, i: nat, b: Book)
    requires BookSound(start, index, b) && NormalizeFrom(env, index, list, i, b).Some?
    ensures BookSound(start, index, NormalizeFrom(env, index, list, i, b).value)
    decreases |list| - i
  {
    hide BookSound, NormalizeStep;
    if i < |list| {
      NormalizeSound(env, start, index, list[i], b);
      NormalizeFromSound(env, start, index, list, i + 1, NormalizeStep(env, index, list[i], b).value);
    }
  }

  lemma {:induction false} SettleFromSound(
    env: Env, start: seq<Entry>, index: Index, input: Input, pool: EpochPool, list: seq<Address>, i: nat, b: Book, active: nat)
    requires BookSound(start, index, b) && SettleFrom(env, index, input, pool, list, i, b, active).Some?
    ensures BookSound(start, index, SettleFrom(env, index, input, pool, list, i, b, active).value)
    decreases |list| - i
  {
    hide BookSound, SettleStep;
    if i < |list| {
      SettleSound(env, start, index, input, pool, list[i], b, active);
      var next := SettleStep(env, index, input, pool, list[i], b, active).value;
      SettleFromSound(env, start, index, input, pool, list, i + 1, next.0, next.1);
    }
  }

  /** Over all steps of a block, every account changes by exactly the records that pay it and the
      lamports slashing took from it, and the supply changes by exactly their sums. */
  lemma AllStepsSound(env: Env, start: seq<Entry>, index: Index, input: Input, b: Book)
    requires BookSound(start, index, b) && AllSteps(env, index, input, b).Some?
    ensures BookSound(start, index, AllSteps(env, index, input, b).value)
  {
    hide BookSound, LeaderFeeStep, MissedFrom, CreditsFrom, OffencesFrom, NormalizeFrom, SettleFrom, ActiveFrom, WeightFrom, PoolOf;
    var fees := LeaderFeeStep(env, index, input, b).value;
    LeaderFeeSound(env, start, index, input, b);
    var missed := MissedAll(env, index, input, fees).value;
    if input.parentSlot != 0 {
      MissedFromSound(env, start, index, input, input.parentSlot + 1, fees);
    }
    var credited := CreditsFrom(env, index, input, 0, missed).value;
    CreditsFromSound(env, start, index, input, 0, missed);
    var slashed := OffencesFrom(env, index, input, 0, credited).value;
    OffencesFromSound(env, start, index, input, 0, credited);
    var normalized := NormalizeAll(env, index, slashed).value;
    NormalizeFromSound(env, start, index, StakeAddresses(slashed.accounts), 0, slashed);
    if input.epoch != 0 {
      var list := StakeAddresses(normalized.accounts);
      var active := ActiveFrom(env, index, input, list, 0, normalized, 0).value;
      var pool := PoolOf(env, input, WeightFrom(env, index, input, list, 0, normalized, 0).value, normalized).value;
      SettleFromSound(env, start, index, input, pool, list, 0, normalized, active);
    }
  }

  // ----- The loops as they run -----

  method RunMissed(env: Env, index: Index, input: Input, b: Book) returns (r: Option<Book>)
    ensures r == MissedAll(env, index, input, b)
  {
    if input.parentSlot == 0 || input.parentSlot + 1 >= input.slot {
      return Some(b);
    }
    var book := b;
    for slot := input.parentSlot + 1 to input.slot
      invariant MissedFrom(env, index, input, slot, book) == MissedFrom(env, index, input, input.parentSlot + 1, b)
    {
      var next := MissedStep(env, index, input, slot, book);
      if next.None? {
        return None;
      }
      book := next.value;
    }
    return Some(book);
  }

  method RunCredits(env: Env, index: Index, input: Input, b: Book) returns (r: Option<Book>)
    ensures r == CreditsFrom(env, index, input, 0, b)
  {
    var book := b;
    for i := 0 to |input.qcs|
      invariant CreditsFrom(env, index, input, i, book) == CreditsFrom(env, index, input, 0, b)
    {
      if !Eligible(input.qcs[i], input) {
        continue;
      }
      ghost var before := book;
      for j := 0 to |input.members|
        invariant MembersFrom(env, index, input, input.qcs[i], j, book) == MembersFrom(env, index, input, input.qcs[i], 0, before)
      {
        var next := VoteCreditStep(env, index, input, input.qcs[i], input.members[j], book);
        if next.None? {
          return None;
        }
        book := next.value;
      }
    }
    return Some(book);
  }

  method RunOffences(env: Env, index: Index, input: Input, b: Book) returns (r: Option<Book>)
    ensures r == OffencesFrom(env, index, input, 0, b)
  {
    var book := b;
    for i := 0 to |input.offences|
      invariant OffencesFrom(env, index, input, i, book) == OffencesFrom(env, index, input, 0, b)
    {
      var next := SlashStep(env, index, input, input.offences[i], book);
      if next.None? {
        return None;
      }
      book := next.value;
    }
    return Some(book);
  }

  method RunNormalize(env: Env, index: Index, b: Book) returns (r: Option<Book>)
    ensures r == NormalizeAll(env, index, b)
  {
    var list, book := StakeAddresses(b.accounts), b;
    for i := 0 to |list|
      invariant NormalizeFrom(env, index, list, i, book) == NormalizeFrom(env, index, list, 0, b)
    {
      var next := NormalizeStep(env, index, list[i], book);
      if next.None? {
        return None;
      }
      book := next.value;
    }
    return Some(book);
  }

  method RunSettlement(env: Env, index: Index, input: Input, b: Book) returns (r: Option<Book>)
    ensures r == SettleAll(env, index, input, b)
  {
    if input.epoch == 0 {
      return Some(b);
    }
    var list := StakeAddresses(b.accounts);
    var count := ActiveFrom(env, index, input, list, 0, b, 0);
    var weight := WeightFrom(env, index, input, list, 0, b, 0);
    if count.None? || weight.None? {
      return None;
    }
    var pool := PoolOf(env, input, weight.value, b);
    if pool.None? {
      return None;
    }
    var book, active := b, count.value;
    for i := 0 to |list|
      invariant SettleFrom(env, index, input, pool.value, list, i, book, active) ==
                SettleFrom(env, index, input, pool.value, list, 0, b, count.value)
    {
      var next := SettleOne(env, index, input, pool.value, list[i], book, active);
      if next.None? {
        return None;
      }
      book, active := next.value.0, next.value.1;
    }
    return Some(book);
  }

  /** One stake account of the settlement: skipped, jailed or rewarded. */
  method SettleOne(env: Env, index: Index, input: Input, pool: EpochPool, owner: Address, b: Book, active: nat)
    returns (r: Option<(Book, nat)>)
    ensures r == SettleStep(env, index, input, pool, owner, b, active)
  {
    hide JailStep, RewardStep, Load;
    var h := Load(env, index, b, owner);
    if h.None? {
      return None;
    }
    if h.value.stake.lastRewardEpoch >= input.epoch {
      return Some((b, active));
    }
    if ShouldJail(h.value.stake, input.config) && active > input.config.minActive {
      var jailed := JailStep(env, input, owner, h.value);
      return if jailed.None? then None else Some((jailed.value, active - 1));
    }
    var rewarded := SettleRewardedValidator(env, index, input, pool, owner, h.value);
    return if rewarded.None? then None else Some((rewarded.value, active));
  }

  /** The rewards of a block. On success every account, and the supply, changed by exactly what the
      LeaderFee, Commission and VotePayout records say less what slashing debited. */
  method ApplyBlockRewards(env: Env, state: seq<Entry>, input: Input) returns (r: Option<(seq<Entry>, seq<Reward>)>)
    requires Unique(state)
    ensures var run := AllSteps(env, Places(state), input, Book(state, [], []));
            && (r.Some? <==> ValidInput(input) && run.Some? && |run.value.rewards| <= MAX_BLOCK_REWARDS)
            && (r.Some? ==> r.value == (run.value.accounts, run.value.rewards))
            && (r.Some? ==> Balanced(state, r.value.0, r.value.1, run.value.burns))
  {
    if !ValidInput(input) {
      return None;
    }
    var index := BuildIndex(state);
    var fees := LeaderFeeStep(env, index, input, Book(state, [], []));
    if fees.None? {
      return None;
    }
    var missed := RunMissed(env, index, input, fees.value);
    if missed.None? {
      return None;
    }
    var credited := RunCredits(env, index, input, missed.value);
    if credited.None? {
      return None;
    }
    var slashed := RunOffences(env, index, input, credited.value);
    if slashed.None? {
      return None;
    }
    var normalized := RunNormalize(env, index, slashed.value);
    if normalized.None? {
      return None;
    }
    var settled := RunSettlement(env, index, input, normalized.value);
    if settled.None? || |settled.value.rewards| > MAX_BLOCK_REWARDS {
      return None;
    }
    BalancedStart(state);
    AllStepsSound(env, state, index, input, Book(state, [], []));
    return Some((settled.value.accounts, settled.value.rewards));
  }
}
