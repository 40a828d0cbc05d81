/** The turn of an epoch as the book at its start decides it: who is jailed, who is rewarded, and by how much. */
module EpochOutcome {

  import opened BlockRewards
  import opened ChainState
  import opened RewardPool
  import opened Rewards
  import opened SettlementEffects
  import opened StakePayout
  import opened SupplyAccounting
  import opened Wrappers

  // ----- What the starting book says -----

  /** An active validator, not settled yet, that missed too many votes or too many proposals. */
  predicate UpForJail(input: Input, st: StakeState) {
    && st.lastRewardEpoch < input.epoch && st.status == Active
    && (input.config.missedVoteThreshold <= st.missedVotes || input.config.missedProposalThreshold <= st.missedProposals)
  }

  /** An active validator with stake in force. */
  predicate InForce(env: Env, input: Input, st: StakeState) {
    st.status == Active && env.effectiveStake(st, input.epoch).Some? && env.effectiveStake(st, input.epoch).value > 0
  }

  function CountInForce(env: Env, index: Index, input: Input, list: seq<Address>, b: Book, i: nat): nat
    decreases |list| - i
  {
    if i >= |list| then 0
    else
      var st := StakeAt(env, index, b, list[i]);
      (if st.Some? && InForce(env, input, st.value) then 1 else 0) + CountInForce(env, index, input, list, b, i + 1)
  }

  /** Validators up for jail among the first `n` of the list. */
  function CountUpForJail(env: Env, index: Index, input: Input, list: seq<Address>, b: Book, n: nat): nat
    requires n <= |list|
  {
    if n == 0 then 0
    else
      var st := StakeAt(env, index, b, list[n - 1]);
      CountUpForJail(env, index, input, list, b, n - 1) + if st.Some? && UpForJail(input, st.value) then 1 else 0
  }

  /** A validator is jailed in its turn, as long as more than the minimum stay. */
  predicate GoesToJail(env: Env, index: Index, input: Input, list: seq<Address>, b: Book, i: nat)
    requires i < |list|
  {
    var st := StakeAt(env, index, b, list[i]);
    && st.Some? && UpForJail(input, st.value)
    && input.config.minActive + CountUpForJail(env, index, input, list, b, i) < CountInForce(env, index, input, list, b, 0)
  }

  /** Stake times credits of an active validator that is neither settled nor up for jail. */
  function Claim(env: Env, input: Input, st: StakeState): nat {
    var effective := env.effectiveStake(st, input.epoch);
    if st.lastRewardEpoch >= input.epoch || st.status != Active || UpForJail(input, st) then 0
    else if st.voteCredits <= st.missedProposals || effective.None? then 0
    else effective.value * (st.voteCredits - st.missedProposals)
  }

  function Claims(env: Env, index: Index, input: Input, list: seq<Address>, b: Book, i: nat): nat
    decreases |list| - i
  {
    if i >= |list| then 0
    else
      var st := StakeAt(env, index, b, list[i]);
      (if st.Some? then Claim(env, input, st.value) else 0) + Claims(env, index, input, list, b, i + 1)
  }

  function SlotsBetween(first: nat, last: nat): nat
    decreases last - first
  {
    if first > last then 0 else 1 + SlotsBetween(first + 1, last)
  }

  /** The epoch's pool: the inflation of the present supply over the slots of the epoch, if it is needed at all. */
  function PoolFor(env: Env, index: Index, input: Input, b: Book): EpochPool {
    var weight := Claims(env, index, input, StakeAddresses(b.accounts), b, 0);
    var lamports := env.inflation(Supply(b.accounts), SlotsBetween(input.startSlot, input.endSlot));
    if weight == 0 || input.config.lamportsPerCredit != 0 || lamports.None? then EpochPool(0, weight)
    else EpochPool(lamports.value, weight)
  }

  /** What becomes of a stake account that is not settled yet. */
  predicate SettledAs(env: Env, input: Input, pool: EpochPool, jailed: bool, st: StakeState, fin: StakeState) {
    && env.mature(st, input.epoch).Some?
    && var matured := env.mature(st, input.epoch).value;
       if jailed then JailedAs(input, matured, fin) else RewardedAs(matured, input, Earned(env, input, pool, matured), fin)
  }

  predicate JailedAs(input: Input, st: StakeState, fin: StakeState) {
    var until := input.epoch + Term(st, input.config);
    fin == st.(status := Jailed, jailUntilEpoch := until, unlockEpoch := until, voteCredits := 0, missedVotes := 0,
               missedProposals := 0, lastRewardEpoch := input.epoch, lastEffectiveStake := fin.lastEffectiveStake)
  }

  // ----- The counts of the code -----

  lemma FlagIsUpForJail(input: Input, st: StakeState)
    ensures UpForJail(input, st) <==> st.lastRewardEpoch < input.epoch && ShouldJail(st, input.config)
  {
  }

  lemma {:induction false} ActiveIsInForce(
    env: Env, index: Index, input: Input, list: seq<Address>, i: nat, b: Book, count: nat)
    requires ActiveFrom(env, index, input, list, i, b, count).Some?
    ensures ActiveFrom(env, index, input, list, i, b, count).value == count + CountInForce(env, index, input, list, b, i)
    decreases |list| - i
  {
    if i < |list| {
      LoadsStakeAt(env, index, b, list[i]);
      hide Load, StakeAt;
      var st := StakeAt(env, index, b, list[i]).value;
      ActiveIsInForce(env, index, input, list, i + 1, b, if InForce(env, input, st) then count + 1 else count);
    }
  }

  lemma WeightIsClaim(env: Env, input: Input, st: StakeState)
    requires !(st.lastRewardEpoch >= input.epoch || ShouldJail(st, input.config) || RewardCredits(st) == 0 || st.status != Active)
    requires env.effectiveStake(st, input.epoch).Some?
    ensures Weight(env.effectiveStake(st, input.epoch).value, RewardCredits(st)) == Claim(env, input, st)
  {
  }

  lemma NoWeightNoClaim(env: Env, input: Input, st: StakeState)
    requires st.lastRewardEpoch >= input.epoch || ShouldJail(st, input.config) || RewardCredits(st) == 0 || st.status != Active
    ensures Claim(env, input, st) == 0
  {
  }

  lemma {:induction false} WeightIsClaims(
    env: Env, index: Index, input: Input, list: seq<Address>, i: nat, b: Book, weight: nat)
    requires WeightFrom(env, index, input, list, i, b, weight).Some?
    ensures WeightFrom(env, index, input, list, i, b, weight).value == weight + Claims(env, index, input, list, b, i)
    decreases |list| - i
  {
    if i < |list| {
      LoadsStakeAt(env, index, b, list[i]);
      hide Load, StakeAt, ShouldJail, RewardCredits, Weight, Claim;
      var st := StakeAt(env, index, b, list[i]).value;
      if st.lastRewardEpoch >= input.epoch || ShouldJail(st, input.config) || RewardCredits(st) == 0 || st.status != Active {
        NoWeightNoClaim(env, input, st);
      } else {
        WeightIsClaim(env, input, st);
      }
      WeightIsClaims(env, index, input, list, i + 1, b, weight + Claim(env, input, st));
    }
  }

  lemma {:induction false} SlotsCounted(first: nat, last: nat)
    requires first <= last
    ensures SlotsBetween(first, last) == last - first + 1
    decreases last - first
  {
    if first < last {
      SlotsCounted(first + 1, last);
    }
  }

  lemma PoolIsPoolFor(env: Env, index: Index, input: Input, b: Book)
    requires var list := StakeAddresses(b.accounts);
             WeightFrom(env, index, input, list, 0, b, 0).Some? && PoolOf(env, input, WeightFrom(env, index, input, list, 0, b, 0).value, b).Some?
    ensures var list := StakeAddresses(b.accounts);
            PoolOf(env, input, WeightFrom(env, index, input, list, 0, b, 0).value, b) == Some(PoolFor(env, index, input, b))
  {
    hide StakeAddresses, WeightFrom, Claims, Supply, SlotsBetween;
    WeightIsClaims(env, index, input, StakeAddresses(b.accounts), 0, b, 0);
    if input.startSlot <= input.endSlot {
      SlotsCounted(input.startSlot, input.endSlot);
    }
  }

  // ----- One account in its turn -----

  lemma TurnSettles(env: Env, index: Index, input: Input, pool: EpochPool, owner: Address, b: Book, active: nat)
    returns (fin: StakeState)
    requires SettleStep(env, index, input, pool, owner, b, active).Some?
    ensures owner in index && StakeAt(env, index, b, owner).Some?
    ensures var st, next := StakeAt(env, index, b, owner).value, SettleStep(env, index, input, pool, owner, b, active).value;
            var jailed := UpForJail(input, st) && active > input.config.minActive;
            && next.1 == (if jailed then active - 1 else active)
            && if st.lastRewardEpoch >= input.epoch then next.0 == b
               else Holds(env, next.0, index[owner], fin) && SettledAs(env, input, pool, jailed, st, fin)
  {
    hide RewardStep, JailStep, ShouldJail, UpForJail, Holds, RewardedAs, Earned, Term;
    var h := Load(env, index, b, owner).value;
    fin := h.stake;
    FlagIsUpForJail(input, h.stake);
    if h.stake.lastRewardEpoch < input.epoch {
      if ShouldJail(h.stake, input.config) && active > input.config.minActive {
        fin := JailSettles(env, input, owner, h, 0);
      } else {
        fin := RewardSettles(env, index, input, pool, owner, h, 0, None);
      }
    }
  }

  /** The turns after an account's own leave its data alone. */
  lemma {:induction false} LaterTurnsKeep(
    env: Env, index: Index, input: Input, pool: EpochPool, list: seq<Address>, i: nat, b: Book, active: nat, place: nat)
    requires SettleFrom(env, index, input, pool, list, i, b, active).Some? && place < |b.accounts|
    requires forall j :: i <= j < |list| && list[j] in index ==> index[list[j]] != place
    ensures var after := SettleFrom(env, index, input, pool, list, i, b, active).value;
            place < |after.accounts| && after.accounts[place].account.data == b.accounts[place].account.data
    decreases |list| - i
  {
    hide SettleStep;
    if i < |list| {
      SettledIsListed(env, index, input, pool, list[i], b, active);
      SettleKeepsData(env, index, input, pool, list[i], b, active);
      var (next, left) := SettleStep(env, index, input, pool, list[i], b, active).value;
      LaterTurnsKeep(env, index, input, pool, list, i + 1, next, left, place);
    }
  }

  // ----- All accounts in turn -----

  /** The validators that may still be jailed when it is the turn of place `i`. */
  ghost predicate Remaining(
    env: Env, index: Index, input: Input, list: seq<Address>, start: Book, active: nat, i: nat, left: nat)
    requires i <= |list|
  {
    left == ActiveLeft(active, input.config.minActive, CountUpForJail(env, index, input, list, start, i))
  }

  lemma TurnLeaves(env: Env, index: Index, input: Input, list: seq<Address>, start: Book, active: nat, i: nat, left: nat, after: nat)
    requires i < |list| && Remaining(env, index, input, list, start, active, i, left)
    requires StakeAt(env, index, start, list[i]).Some?
    requires var jailed := UpForJail(input, StakeAt(env, index, start, list[i]).value) && left > input.config.minActive;
             after == if jailed then left - 1 else left
    ensures Remaining(env, index, input, list, start, active, i + 1, after)
    ensures left > input.config.minActive <==> active > input.config.minActive + CountUpForJail(env, index, input, list, start, i)
  {
    hide UpForJail, StakeAt;
  }

  /** The outcome for an account, after all its data changes. */
  ghost predicate TurnedOut(
    env: Env, index: Index, input: Input, pool: EpochPool, start: Book, a: Address, jailed: bool, after: Book, fin: StakeState)
  {
    && a in index && StakeAt(env, index, start, a).Some?
    && var st := StakeAt(env, index, start, a).value;
    if st.lastRewardEpoch >= input.epoch then StakeAt(env, index, after, a) == Some(st)
    else Holds(env, after, index[a], fin) && SettledAs(env, input, pool, jailed, st, fin)
  }

  lemma OwnTurn(
    env: Env, index: Index, input: Input, pool: EpochPool, start: Book, list: seq<Address>, i: nat, b: Book, active: nat, left: nat)
    returns (fin: StakeState)
    requires Indexes(index, start.accounts) && Distinct(list) && i < |list|
    requires AsInStart(env, index, start, b, list, i) && Remaining(env, index, input, list, start, active, i, left)
    requires SettleFrom(env, index, input, pool, list, i, b, left).Some?
    ensures var st := StakeAt(env, index, start, list[i]);
            && st.Some?
            && var jailed := UpForJail(input, st.value) &&
                             active > input.config.minActive + CountUpForJail(env, index, input, list, start, i);
            TurnedOut(env, index, input, pool, start, list[i], jailed, SettleFrom(env, index, input, pool, list, i, b, left).value, fin)
  {
    hide SettleStep, SettledAs, UpForJail, Distinct, Remaining;
    SameInStart(env, index, start, b, list, i);
    fin := TurnSettles(env, index, input, pool, list[i], b, left);
    var (next, after) := SettleStep(env, index, input, pool, list[i], b, left).value;
    SettleKeepsData(env, index, input, pool, list[i], b, left);
    TurnLeaves(env, index, input, list, start, active, i, left, after);
    OthersElsewhere(index, start, list, i);
    LaterTurnsKeep(env, index, input, pool, list, i + 1, next, after, index[list[i]]);
  }

  lemma OthersElsewhere(index: Index, start: Book, list: seq<Address>, i: nat)
    requires Indexes(index, start.accounts) && Distinct(list) && i < |list| && list[i] in index
    ensures forall j :: i < j < |list| && list[j] in index ==> index[list[j]] != index[list[i]]
  {
    forall j | i < j < |list| && list[j] in index ensures index[list[j]] != index[list[i]] {
      DistinctAt(list, i, j);
      assert start.accounts[index[list[i]]].address == list[i] && start.accounts[index[list[j]]].address == list[j];
    }
  }

  lemma {:induction false} TurnOf(
    env: Env, index: Index, input: Input, pool: EpochPool, start: Book, list: seq<Address>, k: nat, b: Book, active: nat, left: nat,
    i: nat) returns (fin: StakeState)
    requires Indexes(index, start.accounts) && Distinct(list) && k <= i < |list|
    requires AsInStart(env, index, start, b, list, k) && Remaining(env, index, input, list, start, active, k, left)
    requires SettleFrom(env, index, input, pool, list, k, b, left).Some?
    ensures var st := StakeAt(env, index, start, list[i]);
            && st.Some?
            && var jailed := UpForJail(input, st.value) &&
                             active > input.config.minActive + CountUpForJail(env, index, input, list, start, i);
            TurnedOut(env, index, input, pool, start, list[i], jailed, SettleFrom(env, index, input, pool, list, k, b, left).value, fin)
    decreases i - k
  {
    hide SettleStep, SettledAs, UpForJail, Distinct, Remaining, TurnedOut, AsInStart;
    if k == i {
      fin := OwnTurn(env, index, input, pool, start, list, i, b, active, left);
    } else {
      SameInStart(env, index, start, b, list, k);
      var _ := TurnSettles(env, index, input, pool, list[k], b, left);
      var (next, after) := SettleStep(env, index, input, pool, list[k], b, left).value;
      TurnLeaves(env, index, input, list, start, active, k, left, after);
      SettleKeepsOthers(env, index, input, pool, start, list, k, b, left);
      fin := TurnOf(env, index, input, pool, start, list, k + 1, next, active, after, i);
    }
  }

  /** The turn of an epoch, for every stake account, told from the book at its start: an account that was settled
      before stays as it is; one up for jail is jailed if, with those up for jail before it, more than the minimum of
      validators in force stay; every other is rewarded out of the pool that all claims share. */
  lemma EpochTurnsOut(env: Env, index: Index, input: Input, b: Book, i: nat) returns (fin: StakeState)
    requires input.epoch != 0 && SettleAll(env, index, input, b).Some?
    requires Unique(b.accounts) && Indexes(index, b.accounts) && i < |StakeAddresses(b.accounts)|
    ensures var list := StakeAddresses(b.accounts);
            TurnedOut(env, index, input, PoolFor(env, index, input, b), b, list[i], GoesToJail(env, index, input, list, b, i),
                      SettleAll(env, index, input, b).value, fin)
  {
    hide SettleFrom, ActiveFrom, WeightFrom, PoolOf, PoolFor, StakeAddresses, Unique, Indexes, Distinct, UpForJail, TurnedOut, StakeAt;
    var list := StakeAddresses(b.accounts);
    var active := ActiveFrom(env, index, input, list, 0, b, 0).value;
    ActiveIsInForce(env, index, input, list, 0, b, 0);
    PoolIsPoolFor(env, index, input, b);
    StakeAddressesDistinct(b.accounts);
    fin := TurnOf(env, index, input, PoolFor(env, index, input, b), b, list, 0, b, active, active, i);
  }

  // ----- The list -----

  predicate Ascending(list: seq<Address>) {
    forall i, j :: 0 <= i < j < |list| ==> list[i] <= list[j]
  }

  lemma {:induction false} InsertAscends(a: Address, list: seq<Address>)
    requires Ascending(list)
    ensures Ascending(InsertAddress(a, list))
    ensures forall x :: x in InsertAddress(a, list) <==> x == a || x in list
  {
    if list != [] && a > list[0] {
      InsertAscends(a, list[1..]);
      assert forall x :: x in list <==> x == list[0] || x in list[1..];
      var rest := InsertAddress(a, list[1..]);
      forall k | 0 <= k < |rest| ensures list[0] <= rest[k] {
        assert rest[k] in rest;
      }
    }
  }

  /** Settled are exactly the accounts of the stake program that hold data, by ascending address. */
  lemma {:induction false} StakeAddressesExact(s: seq<Entry>, a: Address)
    ensures Ascending(StakeAddresses(s))
    ensures a in StakeAddresses(s) <==>
            exists k :: 0 <= k < |s| && s[k].address == a && s[k].account.owner == STAKE_PROGRAM && |s[k].account.data| > 0
  {
    if s != [] {
      var n := |s| - 1;
      StakeAddressesExact(s[..n], a);
      InsertAscends(s[n].address, StakeAddresses(s[..n]));
      assert forall k :: 0 <= k < n ==> s[..n][k] == s[k];
    }
  }
}
