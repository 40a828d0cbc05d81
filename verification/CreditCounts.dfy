/** Vote credits and missed duties: what the loops of a block add up to for every validator. */
module CreditCounts {

  import opened BlockRewards
  import opened ChainState
  import opened RewardPool
  import opened Rewards
  import opened StakePayout
  import opened SupplyAccounting
  import opened Uint64
  import opened Wrappers

  /** What the codec writes it reads back. */
  ghost predicate RoundTrips(env: Env) {
    forall st :: env.encode(st).Some? ==> env.decode(env.encode(st).value) == Some(st)
  }

  /** No two addresses share a place. */
  ghost predicate Separate(index: Index) {
    forall a, c :: a in index && c in index && a != c ==> index[a] != index[c]
  }

  lemma IndexIsSeparate(index: Index, s: seq<Entry>)
    requires Indexes(index, s)
    ensures Separate(index)
  {
    forall a, c | a in index && c in index && a != c ensures index[a] != index[c] {
      assert s[index[a]].address == a && s[index[c]].address == c;
    }
  }

  /** Writing one stake state changes that one and no other. */
  lemma WriteChangesOne(env: Env, index: Index, h: Held, owner: Address, a: Address)
    requires WriteBack(env, h).Some? && RoundTrips(env) && Separate(index) && owner in index && index[owner] == h.place
    ensures StakeAt(env, index, WriteBack(env, h).value, a) == if a == owner then Some(h.stake) else StakeAt(env, index, h.book, a)
  {
    hide ValidWithRent;
  }

  // ----- Which certificates count for a validator -----

  /** A certificate is old enough to be final and young enough to be paid. */
  predicate InTime(input: Input, k: nat)
    requires k < |input.qcs|
  {
    var qc := input.qcs[k];
    input.config.finalityDepth <= input.height - qc.height && input.slot - qc.slot <= input.config.maxDelaySlots
  }

  /** A certificate counts if it is in time and newer than all that counted before it. */
  ghost predicate CountsFor(input: Input, last: nat, k: nat)
    requires k < |input.qcs|
  {
    && InTime(input, k) && last < input.qcs[k].slot
    && forall j :: 0 <= j < k && InTime(input, j) ==> input.qcs[j].slot < input.qcs[k].slot
  }

  /** Of the first `n` certificates, those that count and list the voter. */
  ghost function Votes(input: Input, last: nat, id: nat, n: nat): nat
    requires n <= |input.qcs|
  {
    if n == 0 then 0
    else Votes(input, last, id, n - 1) + if CountsFor(input, last, n - 1) && id in input.qcs[n - 1].voters then 1 else 0
  }

  /** Of the first `n` certificates, those that count and do not list the voter. */
  ghost function Absences(input: Input, last: nat, id: nat, n: nat): nat
    requires n <= |input.qcs|
  {
    if n == 0 then 0
    else Absences(input, last, id, n - 1) + if CountsFor(input, last, n - 1) && id !in input.qcs[n - 1].voters then 1 else 0
  }

  /** `slot` is the newest of `last` and the first `n` certificates in time. */
  ghost predicate IsNewest(input: Input, last: nat, n: nat, slot: nat)
    requires n <= |input.qcs|
  {
    && last <= slot && (forall j :: 0 <= j < n && InTime(input, j) ==> input.qcs[j].slot <= slot)
    && (slot == last || exists j :: 0 <= j < n && InTime(input, j) && input.qcs[j].slot == slot)
  }

  /** The slot of the last counted vote, or the one before. */
  ghost function LastVote(input: Input, st: StakeState, id: nat, n: nat): nat
    requires n <= |input.qcs|
  {
    if n == 0 then st.lastVoteSlot
    else if CountsFor(input, st.lastRewardedSlot, n - 1) && id in input.qcs[n - 1].voters then input.qcs[n - 1].slot
    else LastVote(input, st, id, n - 1)
  }

  /** A stake state after the first `n` certificates. */
  ghost predicate Tallied(input: Input, st: StakeState, id: nat, n: nat, now: StakeState)
    requires n <= |input.qcs|
  {
    && now == st.(voteCredits := now.voteCredits, missedVotes := now.missedVotes,
                  lastRewardedSlot := now.lastRewardedSlot, lastVoteSlot := now.lastVoteSlot)
    && now.voteCredits == st.voteCredits + Votes(input, st.lastRewardedSlot, id, n)
    && now.missedVotes == st.missedVotes + Absences(input, st.lastRewardedSlot, id, n)
    && IsNewest(input, st.lastRewardedSlot, n, now.lastRewardedSlot)
    && now.lastVoteSlot == LastVote(input, st, id, n)
  }

  // ----- One certificate, one member -----

  /** `now` is the stake state after a certificate that was due for it. */
  predicate Voted(st: StakeState, qc: RewardQC, id: nat, now: StakeState) {
    if st.lastRewardedSlot >= qc.slot then now == st
    else if id in qc.voters then
      st.voteCredits < MAX && now == st.(voteCredits := st.voteCredits + 1, lastRewardedSlot := qc.slot, lastVoteSlot := qc.slot)
    else st.missedVotes < MAX && now == st.(missedVotes := st.missedVotes + 1, lastRewardedSlot := qc.slot)
  }

  lemma StepVotes(env: Env, index: Index, input: Input, qc: RewardQC, m: Member, b: Book, a: Address)
    requires VoteCreditStep(env, index, input, qc, m, b).Some? && RoundTrips(env) && Separate(index)
    ensures var was, now := StakeAt(env, index, b, a), StakeAt(env, index, VoteCreditStep(env, index, input, qc, m, b).value, a);
            if a == m.account then was.Some? && now.Some? && Voted(was.value, qc, m.id, now.value) else now == was
  {
    hide WriteBack, RoundTrips, Separate;
    var h := Load(env, index, b, m.account).value;
    var stake := h.stake.(lastRewardedSlot := qc.slot);
    if h.stake.lastRewardedSlot < qc.slot {
      if m.id in qc.voters {
        var book := Record(b, Reward(VoteCredit, m.id, m.account, 0, input.epoch, qc.slot, 0, 1));
        WriteChangesOne(env, index, h.(book := book, stake := stake.(voteCredits := stake.voteCredits + 1, lastVoteSlot := qc.slot)),
                        m.account, a);
      } else {
        WriteChangesOne(env, index, h.(stake := stake.(missedVotes := stake.missedVotes + 1)), m.account, a);
      }
    }
  }

  // ----- One certificate, all members -----

  ghost predicate DistinctMembers(members: seq<Member>) {
    forall i, j :: 0 <= i < j < |members| ==> members[i].account != members[j].account
  }

  lemma {:induction false} OthersUnchanged(
    env: Env, index: Index, input: Input, qc: RewardQC, i: nat, b: Book, a: Address)
    requires MembersFrom(env, index, input, qc, i, b).Some? && RoundTrips(env) && Separate(index)
    requires forall j :: i <= j < |input.members| ==> input.members[j].account != a
    ensures StakeAt(env, index, MembersFrom(env, index, input, qc, i, b).value, a) == StakeAt(env, index, b, a)
    decreases |input.members| - i
  {
    hide VoteCreditStep, StakeAt, RoundTrips, Separate, Voted;
    if i < |input.members| {
      StepVotes(env, index, input, qc, input.members[i], b, a);
      OthersUnchanged(env, index, input, qc, i + 1, VoteCreditStep(env, index, input, qc, input.members[i], b).value, a);
    }
  }

  lemma {:induction false} MemberVotes(
    env: Env, index: Index, input: Input, qc: RewardQC, i: nat, b: Book, j: nat)
    requires MembersFrom(env, index, input, qc, i, b).Some? && RoundTrips(env) && Separate(index)
    requires i <= j < |input.members| && DistinctMembers(input.members)
    ensures var a := input.members[j].account;
            var was, now := StakeAt(env, index, b, a), StakeAt(env, index, MembersFrom(env, index, input, qc, i, b).value, a);
            was.Some? && now.Some? && Voted(was.value, qc, input.members[j].id, now.value)
    decreases |input.members| - i
  {
    hide VoteCreditStep, StakeAt, RoundTrips, Separate, Voted;
    var next := VoteCreditStep(env, index, input, qc, input.members[i], b).value;
    StepVotes(env, index, input, qc, input.members[i], b, input.members[j].account);
    if i == j {
      OthersUnchanged(env, index, input, qc, i + 1, next, input.members[j].account);
    } else {
      MemberVotes(env, index, input, qc, i + 1, next, j);
    }
  }

  // ----- All certificates -----

  /** A certificate counts exactly when it is in time and newer than the newest so far. */
  lemma CountsWhenNewer(input: Input, last: nat, k: nat, newest: nat)
    requires k < |input.qcs| && IsNewest(input, last, k, newest)
    ensures CountsFor(input, last, k) <==> InTime(input, k) && newest < input.qcs[k].slot
  {
  }

  lemma NewestGrows(input: Input, last: nat, k: nat, newest: nat)
    requires k < |input.qcs| && IsNewest(input, last, k, newest)
    ensures IsNewest(input, last, k + 1, if CountsFor(input, last, k) then input.qcs[k].slot else newest)
  {
    CountsWhenNewer(input, last, k, newest);
  }

  lemma TallyGrows(input: Input, st: StakeState, id: nat, k: nat, was: StakeState, now: StakeState)
    requires k < |input.qcs| && Tallied(input, st, id, k, was)
    requires if Eligible(input.qcs[k], input) then Voted(was, input.qcs[k], id, now) else now == was
    ensures Tallied(input, st, id, k + 1, now)
  {
    hide IsNewest, CountsFor;
    CountsWhenNewer(input, st.lastRewardedSlot, k, was.lastRewardedSlot);
    NewestGrows(input, st.lastRewardedSlot, k, was.lastRewardedSlot);
  }

  lemma {:induction false} CreditsTally(
    env: Env, index: Index, input: Input, i: nat, b: Book, j: nat, st: StakeState, was: StakeState)
    requires CreditsFrom(env, index, input, i, b).Some? && RoundTrips(env) && Separate(index)
    requires i <= |input.qcs| && j < |input.members| && DistinctMembers(input.members)
    requires StakeAt(env, index, b, input.members[j].account) == Some(was) && Tallied(input, st, input.members[j].id, i, was)
    ensures var now := StakeAt(env, index, CreditsFrom(env, index, input, i, b).value, input.members[j].account);
            now.Some? && Tallied(input, st, input.members[j].id, |input.qcs|, now.value)
    decreases |input.qcs| - i
  {
    hide MembersFrom, StakeAt, RoundTrips, Separate, Voted, Tallied, DistinctMembers;
    if i < |input.qcs| {
      var id := input.members[j].id;
      if Eligible(input.qcs[i], input) {
        var next := MembersFrom(env, index, input, input.qcs[i], 0, b).value;
        MemberVotes(env, index, input, input.qcs[i], 0, b, j);
        var now := StakeAt(env, index, next, input.members[j].account).value;
        TallyGrows(input, st, id, i, was, now);
        CreditsTally(env, index, input, i + 1, next, j, st, now);
      } else {
        TallyGrows(input, st, id, i, was, was);
        CreditsTally(env, index, input, i + 1, b, j, st, was);
      }
    }
  }

  lemma TallyStarts(input: Input, st: StakeState, id: nat)
    ensures Tallied(input, st, id, 0, st)
  {
  }

  /** Every member's stake state after the certificates of a block: one credit for each certificate that counts for it
      and lists it, one missed vote for each that counts and does not. */
  lemma CreditsAreVotes(env: Env, index: Index, input: Input, b: Book, j: nat)
    requires CreditsFrom(env, index, input, 0, b).Some? && RoundTrips(env) && Indexes(index, b.accounts)
    requires j < |input.members| && DistinctMembers(input.members)
    requires StakeAt(env, index, b, input.members[j].account).Some?
    ensures var a := input.members[j].account;
            var now := StakeAt(env, index, CreditsFrom(env, index, input, 0, b).value, a);
            now.Some? && Tallied(input, StakeAt(env, index, b, a).value, input.members[j].id, |input.qcs|, now.value)
  {
    hide CreditsFrom, Tallied, RoundTrips;
    IndexIsSeparate(index, b.accounts);
    var st := StakeAt(env, index, b, input.members[j].account).value;
    TallyStarts(input, st, input.members[j].id);
    CreditsTally(env, index, input, 0, b, j, st, st);
  }

  /** Certificates change the stake state of members only. */
  lemma {:induction false} OnlyMembersCredited(env: Env, index: Index, input: Input, i: nat, b: Book, a: Address)
    requires CreditsFrom(env, index, input, i, b).Some? && RoundTrips(env) && Separate(index)
    requires forall j :: 0 <= j < |input.members| ==> input.members[j].account != a
    ensures StakeAt(env, index, CreditsFrom(env, index, input, i, b).value, a) == StakeAt(env, index, b, a)
    decreases |input.qcs| - i
  {
    hide MembersFrom, StakeAt, RoundTrips, Separate;
    if i < |input.qcs| {
      if Eligible(input.qcs[i], input) {
        OthersUnchanged(env, index, input, input.qcs[i], 0, b, a);
        OnlyMembersCredited(env, index, input, i + 1, MembersFrom(env, index, input, input.qcs[i], 0, b).value, a);
      } else {
        OnlyMembersCredited(env, index, input, i + 1, b, a);
      }
    }
  }

  // ----- Missed proposals -----

  /** The slots before `end` that were the epoch's and whose leader has account `a`, from `slot` on. */
  function SlotsMissed(input: Input, a: Address, slot: nat, end: nat): nat
    decreases end - slot
  {
    if slot >= end then 0
    else
      var leader := input.leaderOf(slot);
      (if input.startSlot <= slot <= input.endSlot && leader.Some? && leader.value.account == a then 1 else 0)
      + SlotsMissed(input, a, slot + 1, end)
  }

  lemma StepMisses(env: Env, index: Index, input: Input, slot: nat, b: Book, a: Address)
    requires MissedStep(env, index, input, slot, b).Some? && RoundTrips(env) && Separate(index)
    ensures var was, now := StakeAt(env, index, b, a), StakeAt(env, index, MissedStep(env, index, input, slot, b).value, a);
            var leader := input.leaderOf(slot);
            if input.startSlot <= slot <= input.endSlot && leader.Some? && leader.value.account == a then
              was.Some? && was.value.missedProposals < MAX && now == Some(was.value.(missedProposals := was.value.missedProposals + 1))
            else now == was
  {
    hide WriteBack, RoundTrips, Separate;
    if input.startSlot <= slot <= input.endSlot {
      var leader := input.leaderOf(slot).value;
      var h := Load(env, index, b, leader.account).value;
      var stake := h.stake.(missedProposals := h.stake.missedProposals + 1);
      var book := Record(b, Reward(MissedProposal, leader.id, leader.account, stake.staker, input.epoch, slot, 0, 1));
      WriteChangesOne(env, index, h.(book := book, stake := stake), leader.account, a);
    }
  }

  lemma {:induction false} MissesAddUp(env: Env, index: Index, input: Input, slot: nat, b: Book, a: Address)
    requires MissedFrom(env, index, input, slot, b).Some? && RoundTrips(env) && Separate(index)
    requires StakeAt(env, index, b, a).Some?
    ensures var was, now := StakeAt(env, index, b, a).value, StakeAt(env, index, MissedFrom(env, index, input, slot, b).value, a);
            && now.Some? && now.value == was.(missedProposals := now.value.missedProposals)
            && now.value.missedProposals == was.missedProposals + SlotsMissed(input, a, slot, input.slot)
    decreases input.slot - slot
  {
    hide MissedStep, StakeAt, RoundTrips, Separate;
    if slot < input.slot {
      StepMisses(env, index, input, slot, b, a);
      MissesAddUp(env, index, input, slot + 1, MissedStep(env, index, input, slot, b).value, a);
    }
  }

  /** Every stake account is charged one missed proposal for each slot of the epoch that its validator led and that was
      skipped between the parent and the block; nothing else of it changes. */
  lemma MissedAreSkippedSlots(env: Env, index: Index, input: Input, b: Book, a: Address)
    requires MissedAll(env, index, input, b).Some? && RoundTrips(env) && Indexes(index, b.accounts)
    requires StakeAt(env, index, b, a).Some?
    ensures var was, now := StakeAt(env, index, b, a).value, StakeAt(env, index, MissedAll(env, index, input, b).value, a);
            && now.Some? && now.value == was.(missedProposals := now.value.missedProposals)
            && now.value.missedProposals ==
               was.missedProposals + if input.parentSlot == 0 then 0 else SlotsMissed(input, a, input.parentSlot + 1, input.slot)
  {
    hide MissedFrom, RoundTrips, SlotsMissed;
    IndexIsSeparate(index, b.accounts);
    if input.parentSlot != 0 {
      MissesAddUp(env, index, input, input.parentSlot + 1, b, a);
    }
  }
}
