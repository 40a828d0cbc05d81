/** Block rewards and penalties: each step on the accounts and the reward list, and where the lamports go. */
module Rewards {

  import opened Bytes
  import opened ChainState
  import opened StakePayout
  import opened SupplyAccounting
  import opened Uint64
  import opened Wrappers

  const MAX_DATA := 10 * 1024 * 1024
  const MAX_DATA_INCREASE := 60 * 1024
  const MAX_BLOCK_REWARDS := 8192
  const MAX_REWARD_QCS := 128
  const MAX_EVIDENCE := 128

  /** What rewards take from elsewhere: the stake account codec, rent, the stake program and monetary policy. */
  datatype Env = Env(
    decode: Bytes -> Option<StakeState>,
    encode: StakeState -> Option<Bytes>,
    minimumBalance: nat -> Option<Word>,
    mature: (StakeState, nat) -> Option<StakeState>,
    effectiveStake: (StakeState, nat) -> Option<Word>,
    normalize: StakeState -> Option<(StakeState, bool)>,
    applySlash: (StakeState, Word) -> Option<StakeState>,
    inflation: (nat, nat) -> Option<Word>)

  /** A member of the epoch's validator set. */
  datatype Member = Member(id: nat, account: Address)

  /** A reward certificate that passed its proof checks. */
  datatype RewardQC = RewardQC(slot: nat, height: nat, voters: set<nat>)

  /** Evidence that passed its checks: who to slash and for which slot. */
  datatype Offence = Offence(account: Address, slot: nat)

  /** `policiesValid` says that quorum, monetary policy and rent configuration pass their own checks. */
  datatype Config = Config(
    finalityDepth: nat,
    lamportsPerCredit: Word,
    exactFromEpoch: nat,
    maxDelaySlots: nat,
    missedVoteThreshold: nat,
    missedVoteJailEpochs: nat,
    missedProposalThreshold: nat,
    missedProposalJailEpochs: nat,
    minActive: nat,
    slashBps: BasisPoints,
    jailEpochs: nat,
    policiesValid: bool)

  datatype Input = Input(
    slot: nat,
    parentSlot: nat,
    height: nat,
    epoch: nat,
    startSlot: nat,
    endSlot: nat,
    leader: Member,
    fees: seq<Word>,
    leaderOf: nat -> Option<Member>,
    members: seq<Member>,
    qcs: seq<RewardQC>,
    offences: seq<Offence>,
    config: Config)

  /** The accounts and the reward list while a block is being settled, with the lamports burned so far. */
  datatype Book = Book(accounts: seq<Entry>, rewards: seq<Reward>, burns: seq<Burn>)

  type Index = map<Address, nat>

  // ----- Accounts -----

  predicate ValidWithRent(env: Env, a: Account) {
    && |a.data| <= MAX_DATA
    && if a.lamports == 0 then a.data == [] && !a.executable
       else env.minimumBalance(|a.data|).Some? && a.lamports >= env.minimumBalance(|a.data|).value
  }

  function Credited(a: Account, lamports: nat): Option<Account> {
    if a.lamports + lamports > MAX then None else Some(a.(lamports := a.lamports + lamports))
  }

  function Debited(env: Env, a: Account, lamports: nat): Option<Account> {
    if lamports > a.lamports then None
    else
      var next := a.(lamports := a.lamports - lamports);
      if ValidWithRent(env, next) then Some(next) else None
  }

  function WithData(env: Env, a: Account, data: Bytes): Option<Account> {
    if |data| > MAX_DATA || |data| > |a.data| + MAX_DATA_INCREASE then None
    else
      var next := a.(data := data);
      if ValidWithRent(env, next) then Some(next) else None
  }

  // ----- Book entries -----

  function Put(b: Book, i: nat, a: Account): Book
    requires i < |b.accounts|
  {
    b.(accounts := b.accounts[i := Entry(b.accounts[i].address, a)])
  }

  function Record(b: Book, r: Reward): Book {
    b.(rewards := b.rewards + [r])
  }

  function CreditAccount(env: Env, index: Index, b: Book, to: Address, lamports: nat): Option<Book> {
    if lamports == 0 then Some(b)
    else if to !in index || index[to] >= |b.accounts| then None
    else
      var next := Credited(b.accounts[index[to]].account, lamports);
      if next.None? || !ValidWithRent(env, next.value) then None else Some(Put(b, index[to], next.value))
  }

  /** A stake account taken out of the book for a change: a copy, written back at the end. */
  datatype Held = Held(book: Book, place: nat, account: Account, stake: StakeState)

  function Load(env: Env, index: Index, b: Book, from: Address): Option<Held> {
    if from !in index || index[from] >= |b.accounts| then None
    else
      var account := b.accounts[index[from]].account;
      var stake := env.decode(account.data);
      if stake.None? then None else Some(Held(b, index[from], account, stake.value))
  }

  function WriteBack(env: Env, h: Held): Option<Book> {
    if h.place >= |h.book.accounts| then None
    else
      var data := env.encode(h.stake);
      if data.None? then None
      else
        var account := WithData(env, h.account, data.value);
        if account.None? then None else Some(Put(h.book, h.place, account.value))
  }

  // ----- Leader fee -----

  function FeeTotal(fees: seq<Word>): nat {
    if fees == [] then 0 else FeeTotal(fees[..|fees| - 1]) + fees[|fees| - 1]
  }

  function LeaderFeeStep(env: Env, index: Index, input: Input, b: Book): Option<Book> {
    var fee := FeeTotal(input.fees);
    if fee > MAX then None
    else if fee == 0 then Some(b)
    else
      var paid := CreditAccount(env, index, b, input.leader.account, fee);
      if paid.None? then None
      else Some(Record(paid.value, Reward(LeaderFee, input.leader.id, input.leader.account, 0, input.epoch, input.slot, fee, 0)))
  }

  // ----- Missed proposals and vote credits -----

  function MissedStep(env: Env, index: Index, input: Input, slot: nat, b: Book): Option<Book> {
    if slot < input.startSlot || slot > input.endSlot then Some(b)
    else if input.leaderOf(slot).None? then None
    else
      var leader := input.leaderOf(slot).value;
      var h := Load(env, index, b, leader.account);
      if h.None? || h.value.stake.missedProposals == MAX then None
      else
        var stake := h.value.stake.(missedProposals := h.value.stake.missedProposals + 1);
        var book := Record(b, Reward(MissedProposal, leader.id, leader.account, stake.staker, input.epoch, slot, 0, 1));
        WriteBack(env, h.value.(book := book, stake := stake))
  }

  predicate Eligible(qc: RewardQC, input: Input) {
    qc.height + input.config.finalityDepth <= input.height && qc.slot + input.config.maxDelaySlots >= input.slot
  }

  function VoteCreditStep(env: Env, index: Index, input: Input, qc: RewardQC, m: Member, b: Book): Option<Book> {
    var h := Load(env, index, b, m.account);
    if h.None? then None
    else if h.value.stake.lastRewardedSlot >= qc.slot then Some(b)
    else
      var stake := h.value.stake.(lastRewardedSlot := qc.slot);
      if m.id in qc.voters then
        if stake.voteCredits == MAX then None
        else
          var credited := stake.(voteCredits := stake.voteCredits + 1, lastVoteSlot := qc.slot);
          var book := Record(b, Reward(VoteCredit, m.id, m.account, 0, input.epoch, qc.slot, 0, 1));
          WriteBack(env, h.value.(book := book, stake := credited))
      else if stake.missedVotes == MAX then None
      else WriteBack(env, h.value.(stake := stake.(missedVotes := stake.missedVotes + 1)))
  }

  // ----- Slashing -----

  function TotalStake(st: StakeState): Option<Word> {
    if st.active + st.pending + st.unlocking > MAX then None else Some(st.active + st.pending + st.unlocking)
  }

  /** The slash asked for: a fraction of the stake, or all of it when too little would remain. */
  function RequestedSlash(st: StakeState, bps: BasisPoints): Option<Word> {
    var total := TotalStake(st);
    if total.None? then None
    else if bps == 0 || total.value == 0 then Some(0)
    else
      var slash := Prorate(total.value, bps, BASIS_POINTS);
      if slash >= total.value || total.value - slash < MINIMUM_STAKE then total else Some(slash)
  }

  /** What a slash takes out of the account: no more than it holds above its minimum balance. */
  function Burnable(a: Account, minimum: Word, requested: Word): nat {
    if a.lamports <= minimum then 0
    else if requested > a.lamports - minimum then a.lamports - minimum
    else requested
  }

  function BurnSlash(env: Env, h: Held, requested: Word): Option<(Held, nat)> {
    if requested == 0 then Some((h, 0))
    else
      var total := TotalStake(h.stake);
      var minimum := env.minimumBalance(|h.account.data|);
      if total.None? || requested > total.value || minimum.None? then None
      else
        var burned := Burnable(h.account, minimum.value, requested);
        var account := if h.account.lamports > minimum.value then Debited(env, h.account, burned) else Some(h.account);
        var stake := env.applySlash(h.stake, requested);
        if account.None? || stake.None? then None else Some((h.(account := account.value, stake := stake.value), burned))
  }

  /** The stake state of a convicted validator. */
  function Convicted(env: Env, input: Input, o: Offence, st: StakeState): Option<StakeState> {
    var until := input.epoch + input.config.jailEpochs;
    var jailUntil := if st.jailUntilEpoch > until then st.jailUntilEpoch else until;
    var jailed := st.(status := Jailed, jailUntilEpoch := jailUntil, unlockEpoch := jailUntil,
                      lastSlashedSlot := o.slot, voteCredits := 0, missedVotes := 0, missedProposals := 0);
    var effective := env.effectiveStake(jailed, input.epoch);
    if effective.None? then None else Some(jailed.(lastEffectiveStake := effective.value))
  }

  /** A slash is noted with the lamports asked for, followed by the jail record. */
  function SlashNoted(input: Input, o: Offence, st: StakeState, requested: Word, b: Book): Book {
    var noted :=
      if requested > 0 then
        Record(b, Reward(Slash, st.validatorId, o.account, st.staker, input.epoch, o.slot, requested, 0))
      else b;
    Record(noted, Reward(Jail, st.validatorId, o.account, st.staker, input.epoch, o.slot, 0, 0))
  }

  function SlashStep(env: Env, index: Index, input: Input, o: Offence, b: Book): Option<Book> {
    var h := Load(env, index, b, o.account);
    if h.None? then None
    else if h.value.stake.lastSlashedSlot >= o.slot then Some(b)
    else
      var requested := RequestedSlash(h.value.stake, input.config.slashBps);
      if requested.None? then None
      else
        var burned := BurnSlash(env, h.value, requested.value);
        if burned.None? then None
        else
          var stake := Convicted(env, input, o, burned.value.0.stake);
          if stake.None? then None
          else
            var taken := b.(burns := b.burns + [Burn(o.account, burned.value.1)]);
            WriteBack(env, burned.value.0.(book := SlashNoted(input, o, stake.value, requested.value, taken), stake := stake.value))
  }

  // ----- Normalising delegations -----

  function NormalizeStep(env: Env, index: Index, from: Address, b: Book): Option<Book> {
    var h := Load(env, index, b, from);
    if h.None? then None
    else
      var next := env.normalize(h.value.stake);
      if next.None? then None
      else if !next.value.1 then Some(b)
      else WriteBack(env, h.value.(stake := next.value.0))
  }

  // ----- Paying stakers -----

  function Destination(st: StakeState, p: Payout): Address {
    if p.delegator.None? || p.delegator.value >= |st.delegations| then st.staker
    else st.delegations[p.delegator.value].account
  }

  /** Counts a payment in the stake account itself; absent on overflow. */
  function Counted(st: StakeState, p: Payout): Option<StakeState> {
    if p.delegator.None? || p.delegator.value >= |st.delegations| then
      if st.selfReward + p.lamports > MAX then None else Some(st.(selfReward := st.selfReward + p.lamports))
    else
      var i := p.delegator.value;
      var d := st.delegations[i];
      if d.reward + p.lamports > MAX then None
      else Some(st.(delegations := st.delegations[i := d.(reward := d.reward + p.lamports)]))
  }

  /** One payment: into the held copy when it goes to the validator's own account, into the book otherwise. */
  function Pay(env: Env, index: Index, input: Input, owner: Address, credits: nat, h: Held, p: Payout): Option<Held> {
    var to := Destination(h.stake, p);
    var counted := Counted(h.stake, p);
    var account := if to == owner then Credited(h.account, p.lamports) else Some(h.account);
    var book := if to == owner then Some(h.book) else CreditAccount(env, index, h.book, to, p.lamports);
    if counted.None? || account.None? || book.None? then None
    else
      var r := Reward(VotePayout, h.stake.validatorId, to, h.stake.staker, input.epoch, input.slot, p.lamports, credits);
      Some(Held(Record(book.value, r), h.place, account.value, counted.value))
  }

  function PayAll(env: Env, index: Index, input: Input, owner: Address, credits: nat, h: Held, ps: seq<Payout>): Option<Held> {
    if ps == [] then Some(h)
    else
      var front := PayAll(env, index, input, owner, credits, h, ps[..|ps| - 1]);
      if front.None? then None else Pay(env, index, input, owner, credits, front.value, ps[|ps| - 1])
  }

  predicate IsExact(input: Input) {
    input.epoch >= input.config.exactFromEpoch
  }

  // ----- Epoch settlement -----

  datatype EpochPool = EpochPool(lamports: Word, weight: nat)

  function RewardCredits(st: StakeState): Word {
    if st.missedProposals >= st.voteCredits then 0 else st.voteCredits - st.missedProposals
  }

  predicate ShouldJail(st: StakeState, c: Config) {
    st.status == Active && (st.missedVotes >= c.missedVoteThreshold || st.missedProposals >= c.missedProposalThreshold)
  }

  function PerformanceJailEpochs(st: StakeState, c: Config): nat {
    var votes := if st.missedVotes >= c.missedVoteThreshold then c.missedVoteJailEpochs else 0;
    var epochs := if st.missedProposals >= c.missedProposalThreshold && c.missedProposalJailEpochs > votes
                  then c.missedProposalJailEpochs else votes;
    if epochs == 0 then 1 else epochs
  }

  function Weight(stake: Word, credits: Word): nat {
    stake * credits
  }

  function VoteReward(env: Env, input: Input, pool: EpochPool, st: StakeState, credits: Word): Option<Word> {
    if credits == 0 then Some(0)
    else if input.config.lamportsPerCredit != 0 then
      if Weight(credits, input.config.lamportsPerCredit) > MAX then None
      else Some(Weight(credits, input.config.lamportsPerCredit))
    else if pool.lamports == 0 || pool.weight == 0 then Some(0)
    else
      var effective := env.effectiveStake(st, input.epoch);
      if effective.None? || Weight(effective.value, credits) > pool.weight then None
      else Some(Fraction(pool.lamports, Weight(effective.value, credits), pool.weight))
  }

  function JailStep(env: Env, input: Input, owner: Address, h: Held): Option<Book> {
    var matured := env.mature(h.stake, input.epoch);
    if matured.None? then None
    else
      var until := input.epoch + PerformanceJailEpochs(matured.value, input.config);
      var jailed := matured.value.(status := Jailed, jailUntilEpoch := until, unlockEpoch := until, voteCredits := 0,
                                   missedVotes := 0, missedProposals := 0, lastRewardEpoch := input.epoch);
      var effective := env.effectiveStake(jailed, input.epoch);
      if effective.None? then None
      else
        var stake := jailed.(lastEffectiveStake := effective.value);
        var book := Record(h.book, Reward(Jail, stake.validatorId, owner, stake.staker, input.epoch, input.slot, 0, 0));
        WriteBack(env, h.(book := book, stake := stake))
  }

  function Commissioned(input: Input, owner: Address, h: Held, commission: Word): Option<Held> {
    if commission == 0 then Some(h)
    else
      var account := Credited(h.account, commission);
      if account.None? || h.stake.commissionReward + commission > MAX then None
      else
        var r := Reward(Commission, h.stake.validatorId, owner, h.stake.staker, input.epoch, input.slot, commission, 0);
        Some(Held(Record(h.book, r), h.place, account.value, h.stake.(commissionReward := h.stake.commissionReward + commission)))
  }

  /** The reward of one validator: commission to its account, the rest to the stakers. */
  function RewardStep(env: Env, index: Index, input: Input, pool: EpochPool, owner: Address, h: Held): Option<Book> {
    var matured := env.mature(h.stake, input.epoch);
    if matured.None? then None
    else
      var credits := RewardCredits(matured.value);
      var reward := VoteReward(env, input, pool, matured.value, credits);
      if reward.None? then None
      else
        var commission := Prorate(reward.value, matured.value.commissionBps, BASIS_POINTS);
        var charged := Commissioned(input, owner, h.(stake := matured.value), commission);
        if charged.None? then None
        else
          CommissionFits(reward.value, matured.value.commissionBps);
          var payouts := Payouts(charged.value.stake, reward.value - commission, IsExact(input));
          if payouts.None? then None
          else
            var paid := PayAll(env, index, input, owner, credits, charged.value, payouts.value);
            if paid.None? || paid.value.stake.totalReward + reward.value > MAX then None
            else
              var stake := paid.value.stake.(totalReward := paid.value.stake.totalReward + reward.value, voteCredits := 0,
                                             missedVotes := 0, missedProposals := 0, lastRewardEpoch := input.epoch);
              WriteBack(env, paid.value.(stake := stake))
  }

  lemma CommissionFits(reward: Word, bps: BasisPoints)
    ensures Prorate(reward, bps, BASIS_POINTS) <= reward
  {
    ProrateFits(reward, bps, BASIS_POINTS);
  }

  /** One stake account at the turn of an epoch; carries the number of active validators along. */
  function SettleStep(env: Env, index: Index, input: Input, pool: EpochPool, owner: Address, b: Book, active: nat): Option<(Book, nat)> {
    var h := Load(env, index, b, owner);
    if h.None? then None
    else if h.value.stake.lastRewardEpoch >= input.epoch then Some((b, active))
    else if ShouldJail(h.value.stake, input.config) && active > input.config.minActive then
      var jailed := JailStep(env, input, owner, h.value);
      if jailed.None? then None else Some((jailed.value, active - 1))
    else
      var rewarded := RewardStep(env, index, input, pool, owner, h.value);
      if rewarded.None? then None else Some((rewarded.value, active))
  }

  // ----- Every step keeps the accounts balanced -----

  /** The book against the accounts the block started from. */
  ghost predicate BookSound(start: seq<Entry>, index: Index, b: Book) {
    Unique(start) && Indexes(index, b.accounts) && Balanced(start, b.accounts, b.rewards, b.burns)
  }

  /** The book with the held copy in its place: nothing is counted twice or lost while it is out. */
  ghost predicate HeldSound(start: seq<Entry>, index: Index, owner: Address, h: Held) {
    && Unique(start) && Indexes(index, h.book.accounts)
    && owner in index && index[owner] == h.place
    && Balanced(start, Put(h.book, h.place, h.account).accounts, h.book.rewards, h.book.burns)
  }

  lemma PutKeepsIndex(index: Index, b: Book, i: nat, a: Account)
    requires Indexes(index, b.accounts) && i < |b.accounts|
    ensures Indexes(index, Put(b, i, a).accounts)
  {
    assert forall k :: 0 <= k < |b.accounts| ==> Put(b, i, a).accounts[k].address == b.accounts[k].address;
  }

  lemma LoadSound(env: Env, start: seq<Entry>, index: Index, b: Book, owner: Address)
    requires BookSound(start, index, b) && Load(env, index, b, owner).Some?
    ensures HeldSound(start, index, owner, Load(env, index, b, owner).value)
    ensures Load(env, index, b, owner).value.book == b
  {
    var h := Load(env, index, b, owner).value;
    assert Put(b, h.place, h.account).accounts == b.accounts;
  }

  lemma WriteBackSound(env: Env, start: seq<Entry>, index: Index, owner: Address, h: Held)
    requires HeldSound(start, index, owner, h) && WriteBack(env, h).Some?
    ensures BookSound(start, index, WriteBack(env, h).value)
  {
    var account := WithData(env, h.account, env.encode(h.stake).value).value;
    var held := Put(h.book, h.place, h.account);
    BalancedWrite(start, held.accounts, h.book.rewards, h.book.burns, h.place, account);
    assert held.accounts[h.place := Entry(owner, account)] == Put(h.book, h.place, account).accounts;
    PutKeepsIndex(index, h.book, h.place, account);
  }

  /** Changing the stake data or noting a record that pays nobody leaves the balance alone. */
  lemma HeldNoted(start: seq<Entry>, index: Index, owner: Address, h: Held, stake: StakeState, r: Reward)
    requires HeldSound(start, index, owner, h) && !Pays(r.kind)
    ensures HeldSound(start, index, owner, h.(book := Record(h.book, r), stake := stake))
  {
    BalancedRecord(start, Put(h.book, h.place, h.account).accounts, h.book.rewards, h.book.burns, r);
  }

  /** Crediting an account and recording it. */
  lemma CreditSound(env: Env, start: seq<Entry>, index: Index, b: Book, to: Address, r: Reward)
    requires BookSound(start, index, b) && r.lamports > 0 && Pays(r.kind) && r.account == to
    requires CreditAccount(env, index, b, to, r.lamports).Some?
    ensures BookSound(start, index, Record(CreditAccount(env, index, b, to, r.lamports).value, r))
  {
    var i := index[to];
    var account := Credited(b.accounts[i].account, r.lamports).value;
    BalancedCredit(start, b.accounts, b.rewards, b.burns, i, account, r);
    PutKeepsIndex(index, b, i, account);
  }

  lemma LeaderFeeSound(env: Env, start: seq<Entry>, index: Index, input: Input, b: Book)
    requires BookSound(start, index, b) && LeaderFeeStep(env, index, input, b).Some?
    ensures BookSound(start, index, LeaderFeeStep(env, index, input, b).value)
  {
    var fee := FeeTotal(input.fees);
    if fee > 0 {
      CreditSound(env, start, index, b, input.leader.account,
                  Reward(LeaderFee, input.leader.id, input.leader.account, 0, input.epoch, input.slot, fee, 0));
    }
  }

  lemma MissedSound(env: Env, start: seq<Entry>, index: Index, input: Input, slot: nat, b: Book)
    requires BookSound(start, index, b) && MissedStep(env, index, input, slot, b).Some?
    ensures BookSound(start, index, MissedStep(env, index, input, slot, b).value)
  {
    hide WriteBack, BookSound, HeldSound, Load;
    if input.startSlot <= slot <= input.endSlot {
      var leader := input.leaderOf(slot).value;
      LoadSound(env, start, index, b, leader.account);
      var h := Load(env, index, b, leader.account).value;
      var stake := h.stake.(missedProposals := h.stake.missedProposals + 1);
      var r := Reward(MissedProposal, leader.id, leader.account, stake.staker, input.epoch, slot, 0, 1);
      HeldNoted(start, index, leader.account, h, stake, r);
      WriteBackSound(env, start, index, leader.account, h.(book := Record(b, r), stake := stake));
    }
  }

  lemma VoteCreditSound(env: Env, start: seq<Entry>, index: Index, input: Input, qc: RewardQC, m: Member, b: Book)
    requires BookSound(start, index, b) && VoteCreditStep(env, index, input, qc, m, b).Some?
    ensures BookSound(start, index, VoteCreditStep(env, index, input, qc, m, b).value)
  {
    hide WriteBack, BookSound, HeldSound, Load;
    LoadSound(env, start, index, b, m.account);
    var h := Load(env, index, b, m.account).value;
    if h.stake.lastRewardedSlot < qc.slot {
      var stake := h.stake.(lastRewardedSlot := qc.slot);
      if m.id in qc.voters {
        var credited := stake.(voteCredits := stake.voteCredits + 1, lastVoteSlot := qc.slot);
        var r := Reward(VoteCredit, m.id, m.account, 0, input.epoch, qc.slot, 0, 1);
        HeldNoted(start, index, m.account, h, credited, r);
        WriteBackSound(env, start, index, m.account, h.(book := Record(b, r), stake := credited));
      } else {
        var missed := stake.(missedVotes := stake.missedVotes + 1);
        HeldRestaked(start, index, m.account, h, missed);
        WriteBackSound(env, start, index, m.account, h.(stake := missed));
      }
    }
  }

  lemma NormalizeSound(env: Env, start: seq<Entry>, index: Index, from: Address, b: Book)
    requires BookSound(start, index, b) && NormalizeStep(env, index, from, b).Some?
    ensures BookSound(start, index, NormalizeStep(env, index, from, b).value)
  {
    hide WriteBack, BookSound, HeldSound, Load;
    LoadSound(env, start, index, b, from);
    var h := Load(env, index, b, from).value;
    var next := env.normalize(h.stake).value;
    if next.1 {
      HeldRestaked(start, index, from, h, next.0);
      WriteBackSound(env, start, index, from, h.(stake := next.0));
    }
  }

  /** The held copy loses exactly what is noted as burned. */
  lemma BurnSound(env: Env, start: seq<Entry>, index: Index, owner: Address, h: Held, requested: Word)
    requires HeldSound(start, index, owner, h) && BurnSlash(env, h, requested).Some?
    ensures var (held, burned) := BurnSlash(env, h, requested).value;
            && held.book == h.book && held.place == h.place && held.account.lamports + burned == h.account.lamports
            && HeldSound(start, index, owner, held.(book := h.book.(burns := h.book.burns + [Burn(owner, burned)])))
  {
    var (held, burned) := BurnSlash(env, h, requested).value;
    var out := Put(h.book, h.place, h.account).accounts;
    BalancedBurn(start, out, h.book.rewards, h.book.burns, h.place, held.account, burned);
    assert out[h.place := Entry(owner, held.account)] == Put(h.book, h.place, held.account).accounts;
  }

  lemma SlashNotedSound(start: seq<Entry>, index: Index, input: Input, o: Offence, h: Held, stake: StakeState, requested: Word)
    requires HeldSound(start, index, o.account, h)
    ensures HeldSound(start, index, o.account, h.(book := SlashNoted(input, o, stake, requested, h.book), stake := stake))
  {
    var slash := Reward(Slash, stake.validatorId, o.account, stake.staker, input.epoch, o.slot, requested, 0);
    var jail := Reward(Jail, stake.validatorId, o.account, stake.staker, input.epoch, o.slot, 0, 0);
    if requested > 0 {
      HeldNoted(start, index, o.account, h, stake, slash);
      HeldNoted(start, index, o.account, h.(book := Record(h.book, slash), stake := stake), stake, jail);
    } else {
      HeldNoted(start, index, o.account, h, stake, jail);
    }
  }

  lemma SlashSound(env: Env, start: seq<Entry>, index: Index, input: Input, o: Offence, b: Book)
    requires BookSound(start, index, b) && SlashStep(env, index, input, o, b).Some?
    ensures BookSound(start, index, SlashStep(env, index, input, o, b).value)
  {
    hide WriteBack, BurnSlash, RequestedSlash, BookSound, HeldSound, Convicted, SlashNoted, Load;
    LoadSound(env, start, index, b, o.account);
    var h := Load(env, index, b, o.account).value;
    if h.stake.lastSlashedSlot < o.slot {
      var requested := RequestedSlash(h.stake, input.config.slashBps).value;
      BurnSound(env, start, index, o.account, h, requested);
      var (held, lamports) := BurnSlash(env, h, requested).value;
      var stake := Convicted(env, input, o, held.stake).value;
      var taken := held.(book := b.(burns := b.burns + [Burn(o.account, lamports)]));
      SlashNotedSound(start, index, input, o, taken, stake, requested);
      WriteBackSound(env, start, index, o.account, taken.(book := SlashNoted(input, o, stake, requested, taken.book), stake := stake));
    }
  }

  /** A payment keeps the balance, whether it goes to the held copy, to another stake account or elsewhere. */
  lemma PaySound(env: Env, start: seq<Entry>, index: Index, input: Input, owner: Address, credits: nat, h: Held, p: Payout)
    requires HeldSound(start, index, owner, h) && p.lamports > 0
    requires Pay(env, index, input, owner, credits, h, p).Some?
    ensures HeldSound(start, index, owner, Pay(env, index, input, owner, credits, h, p).value)
  {
    hide Counted, Destination, ValidWithRent, Balanced, Unique;
    var to := Destination(h.stake, p);
    var out := Put(h.book, h.place, h.account).accounts;
    var r := Reward(VotePayout, h.stake.validatorId, to, h.stake.staker, input.epoch, input.slot, p.lamports, credits);
    if to == owner {
      var account := Credited(h.account, p.lamports).value;
      BalancedCredit(start, out, h.book.rewards, h.book.burns, h.place, account, r);
      assert out[h.place := Entry(owner, account)] == Put(h.book, h.place, account).accounts;
    } else {
      var i := index[to];
      var account := Credited(h.book.accounts[i].account, p.lamports).value;
      assert i != h.place;
      BalancedCredit(start, out, h.book.rewards, h.book.burns, i, account, r);
      assert out[i := Entry(to, account)] == Put(Put(h.book, i, account), h.place, h.account).accounts;
      PutKeepsIndex(index, h.book, i, account);
    }
  }

  ghost predicate AllPositive(ps: seq<Payout>) {
    forall i :: 0 <= i < |ps| ==> ps[i].lamports > 0
  }

  lemma {:induction false} PayAllSound(
    env: Env, start: seq<Entry>, index: Index, input: Input, owner: Address, credits: nat, h: Held, ps: seq<Payout>)
    requires HeldSound(start, index, owner, h) && AllPositive(ps)
    requires PayAll(env, index, input, owner, credits, h, ps).Some?
    ensures HeldSound(start, index, owner, PayAll(env, index, input, owner, credits, h, ps).value)
  {
    hide HeldSound, Pay;
    if ps != [] {
      PayAllSound(env, start, index, input, owner, credits, h, ps[..|ps| - 1]);
      var front := PayAll(env, index, input, owner, credits, h, ps[..|ps| - 1]).value;
      PaySound(env, start, index, input, owner, credits, front, ps[|ps| - 1]);
    }
  }

  lemma {:induction false} DelegatorsPositive(st: StakeState, pool: Word, exact: bool, n: nat)
    requires st.active > 0 && n <= |st.delegations|
    ensures AllPositive(DelegatorPayouts(st, pool, exact, n))
  {
    hide Share;
    if n > 0 {
      DelegatorsPositive(st, pool, exact, n - 1);
    }
  }

  lemma PayoutsPositive(st: StakeState, pool: Word, exact: bool)
    requires Payouts(st, pool, exact).Some?
    ensures AllPositive(Payouts(st, pool, exact).value)
  {
    hide Share;
    if pool > 0 && st.active > 0 {
      DelegatorsPositive(st, pool, exact, |st.delegations|);
    }
  }

  lemma CommissionedSound(start: seq<Entry>, index: Index, input: Input, owner: Address, h: Held, commission: Word)
    requires HeldSound(start, index, owner, h) && Commissioned(input, owner, h, commission).Some?
    ensures HeldSound(start, index, owner, Commissioned(input, owner, h, commission).value)
  {
    hide Balanced, Unique;
    if commission > 0 {
      var out := Put(h.book, h.place, h.account).accounts;
      var account := Credited(h.account, commission).value;
      var r := Reward(Commission, h.stake.validatorId, owner, h.stake.staker, input.epoch, input.slot, commission, 0);
      BalancedCredit(start, out, h.book.rewards, h.book.burns, h.place, account, r);
      assert out[h.place := Entry(owner, account)] == Put(h.book, h.place, account).accounts;
    }
  }

  /** Changing only the stake data of the held copy. */
  lemma HeldRestaked(start: seq<Entry>, index: Index, owner: Address, h: Held, stake: StakeState)
    requires HeldSound(start, index, owner, h)
    ensures HeldSound(start, index, owner, h.(stake := stake))
  {
  }

  lemma RewardSound(env: Env, start: seq<Entry>, index: Index, input: Input, pool: EpochPool, owner: Address, h: Held)
    requires HeldSound(start, index, owner, h) && RewardStep(env, index, input, pool, owner, h).Some?
    ensures BookSound(start, index, RewardStep(env, index, input, pool, owner, h).value)
  {
    hide HeldSound, BookSound, VoteReward, Payouts, PayAll, Commissioned, Prorate, WriteBack, RewardCredits;
    var matured := env.mature(h.stake, input.epoch).value;
    var credits := RewardCredits(matured);
    var reward := VoteReward(env, input, pool, matured, credits).value;
    var commission := Prorate(reward, matured.commissionBps, BASIS_POINTS);
    HeldRestaked(start, index, owner, h, matured);
    CommissionedSound(start, index, input, owner, h.(stake := matured), commission);
    var charged := Commissioned(input, owner, h.(stake := matured), commission).value;
    CommissionFits(reward, matured.commissionBps);
    PayoutsPositive(charged.stake, reward - commission, IsExact(input));
    var payouts := Payouts(charged.stake, reward - commission, IsExact(input)).value;
    PayAllSound(env, start, index, input, owner, credits, charged, payouts);
    var paid := PayAll(env, index, input, owner, credits, charged, payouts).value;
    var stake := paid.stake.(totalReward := paid.stake.totalReward + reward, voteCredits := 0,
                             missedVotes := 0, missedProposals := 0, lastRewardEpoch := input.epoch);
    HeldRestaked(start, index, owner, paid, stake);
    WriteBackSound(env, start, index, owner, paid.(stake := stake));
  }

  lemma JailSound(env: Env, start: seq<Entry>, index: Index, input: Input, owner: Address, h: Held)
    requires HeldSound(start, index, owner, h) && JailStep(env, input, owner, h).Some?
    ensures BookSound(start, index, JailStep(env, input, owner, h).value)
  {
    hide HeldSound, BookSound, WriteBack;
    var matured := env.mature(h.stake, input.epoch).value;
    var until := input.epoch + PerformanceJailEpochs(matured, input.config);
    var jailed := matured.(status := Jailed, jailUntilEpoch := until, unlockEpoch := until, voteCredits := 0,
                           missedVotes := 0, missedProposals := 0, lastRewardEpoch := input.epoch);
    var stake := jailed.(lastEffectiveStake := env.effectiveStake(jailed, input.epoch).value);
    var r := Reward(Jail, stake.validatorId, owner, stake.staker, input.epoch, input.slot, 0, 0);
    HeldNoted(start, index, owner, h, stake, r);
    WriteBackSound(env, start, index, owner, h.(book := Record(h.book, r), stake := stake));
  }

  lemma SettleSound(env: Env, start: seq<Entry>, index: Index, input: Input, pool: EpochPool, owner: Address, b: Book, active: nat)
    requires BookSound(start, index, b) && SettleStep(env, index, input, pool, owner, b, active).Some?
    ensures BookSound(start, index, SettleStep(env, index, input, pool, owner, b, active).value.0)
  {
    hide HeldSound, BookSound, RewardStep, JailStep, Load, ShouldJail;
    LoadSound(env, start, index, b, owner);
    var h := Load(env, index, b, owner).value;
    if h.stake.lastRewardEpoch < input.epoch {
      if ShouldJail(h.stake, input.config) && active > input.config.minActive {
        JailSound(env, start, index, input, owner, h);
      } else {
        RewardSound(env, start, index, input, pool, owner, h);
      }
    }
  }
}
