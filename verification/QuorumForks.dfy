/** When two nodes can certify conflicting blocks although at most the Byzantine bound voted twice. */
module QuorumForks {

  import opened Bytes
  import opened Sums
  import opened Uint64
  import opened Votes
  import opened Wrappers
  import opened Collector
  import opened AccountableSafety

  // ----- Any voters that reach the threshold can certify -----

  function VoteBy(stake: map<ValidatorId, Word>, key: VoteKey, height: nat, v: ValidatorId): Input
    requires v in stake
  {
    Input(Vote(key.voteType, key.slot, height, key.hash, v, stake[v], 1), [], [])
  }

  function VotesBy(stake: map<ValidatorId, Word>, key: VoteKey, height: nat, voters: seq<ValidatorId>): seq<Input>
    requires Elements(voters) <= stake.Keys
  {
    seq(|voters|, i requires 0 <= i < |voters| => VoteBy(stake, key, height, voters[i]))
  }

  predicate Votable(key: VoteKey, height: nat) {
    key.voteType != Unknown && key.hash != ZERO_HASH && height != 0
  }

  ghost predicate Distinct(voters: seq<ValidatorId>) {
    forall i, j :: 0 <= i < j < |voters| ==> voters[i] != voters[j]
  }

  /** A collector that has seen nothing but the votes of `voters` for one block. */
  ghost predicate HasVotes(s: State, e: State, key: VoteKey, height: nat, voters: set<ValidatorId>) {
    && e == s.(buckets := e.buckets, choices := e.choices)
    && BucketAt(e, key).voters == voters && BucketAt(e, key).height in {0, height}
    && (forall k :: k in e.choices ==> k.voter in voters)
  }

  lemma FreshVoteCounts(s: State, e: State, key: VoteKey, height: nat, voters: set<ValidatorId>, v: ValidatorId)
    requires Sound(e) && HasVotes(s, e, key, height, voters) && Votable(key, height)
    requires v in s.stake && v !in voters
    ensures var i := VoteBy(s.stake, key, height, v);
            RefusalOf(e, i.vote).None? && KeyOf(i.vote) == key && HasVotes(s, Next(e, i), key, height, voters + {v})
  {
    assert ValidEntry(e.stake, v);
  }

  lemma LastVote(stake: map<ValidatorId, Word>, key: VoteKey, height: nat, voters: seq<ValidatorId>)
    requires Elements(voters) <= stake.Keys && voters != []
    ensures var n := |voters| - 1;
            && Elements(voters[..n]) <= stake.Keys && voters[n] in stake
            && Elements(voters[..n]) + {voters[n]} == Elements(voters)
            && VotesBy(stake, key, height, voters)[..n] == VotesBy(stake, key, height, voters[..n])
            && VotesBy(stake, key, height, voters)[n] == VoteBy(stake, key, height, voters[n])
  {
    var n := |voters| - 1;
    assert voters == voters[..n] + [voters[n]];
    assert VotesBy(stake, key, height, voters)[..n] == VotesBy(stake, key, height, voters[..n]);
  }

  lemma {:induction false} VotesAdd(s: State, key: VoteKey, height: nat, voters: seq<ValidatorId>)
    requires Sound(s) && s.buckets == map[] && s.choices == map[] && Votable(key, height)
    requires Distinct(voters) && Elements(voters) <= s.stake.Keys
    ensures HasVotes(s, After(s, VotesBy(s.stake, key, height, voters)), key, height, Elements(voters))
  {
    hide Sound, RefusalOf, Next;
    if voters != [] {
      var n := |voters| - 1;
      var inputs, front := VotesBy(s.stake, key, height, voters), VotesBy(s.stake, key, height, voters[..n]);
      LastVote(s.stake, key, height, voters);
      VotesAdd(s, key, height, voters[..n]);
      RunSound(s, front);
      assert After(s, inputs) == Next(After(s, front), inputs[n]);
      FreshVoteCounts(s, After(s, front), key, height, Elements(voters[..n]), voters[n]);
    }
  }

  /** What a collector answers to a plain vote. */
  function ReplyTo(s: State, i: Input): Reply {
    if RefusalOf(s, i.vote).Some? then Refused(RefusalOf(s, i.vote).value)
    else if !Completes(s, i) then Counted
    else Certified(PlainCertificate(s, i))
  }

  function Replies(s: State, inputs: seq<Input>): seq<Reply> {
    seq(|inputs|, n requires 0 <= n < |inputs| => ReplyTo(After(s, inputs[..n]), inputs[n]))
  }

  lemma RepliesAreRun(s: State, stake: map<ValidatorId, Word>, key: VoteKey, height: nat, voters: seq<ValidatorId>,
                      aggregate: seq<Bytes> -> Option<Bytes>)
    requires Elements(voters) <= stake.Keys
    ensures var inputs := VotesBy(stake, key, height, voters); IsRun(s, inputs, aggregate, Replies(s, inputs))
  {
    hide RefusalOf, Completes, After;
  }

  predicate IsFor(c: Certificate, key: VoteKey, height: nat) {
    c.voteType == key.voteType && c.slot == key.slot && c.hash == key.hash && c.height == height
  }

  /** The vote that carries the voters over the threshold is answered with a certificate. */
  lemma CrossingCertifies(s: State, key: VoteKey, height: nat, voters: seq<ValidatorId>)
    requires Sound(s) && s.buckets == map[] && s.choices == map[] && Votable(key, height)
    requires Distinct(voters) && Elements(voters) <= s.stake.Keys && voters != []
    requires Elements(voters[..|voters| - 1]) <= s.stake.Keys
    requires Sum(s.stake, Elements(voters[..|voters| - 1])) < ThresholdFor(s, key.voteType) <= Sum(s.stake, Elements(voters))
    ensures var inputs := VotesBy(s.stake, key, height, voters);
            var r := Replies(s, inputs)[|voters| - 1];
            r.Certified? && IsFor(r.certificate, key, height) && Elements(r.certificate.voters) == Elements(voters)
  {
    hide Sound, RefusalOf, Next, Sum;
    var n := |voters| - 1;
    var front, i := VotesBy(s.stake, key, height, voters[..n]), VoteBy(s.stake, key, height, voters[n]);
    LastVote(s.stake, key, height, voters);
    VotesAdd(s, key, height, voters[..n]);
    RunSound(s, front);
    var e := After(s, front);
    FreshVoteCounts(s, e, key, height, Elements(voters[..n]), voters[n]);
    AcceptedVoterIsNew(e, i);
    NextBucket(e, i);
  }

  /** Voters of any table whose stake reaches the threshold have a run that certifies their block. */
  lemma {:induction false} QuorumCertifies(s: State, key: VoteKey, height: nat, voters: seq<ValidatorId>) returns (n: nat)
    requires Sound(s) && s.buckets == map[] && s.choices == map[] && Votable(key, height)
    requires Distinct(voters) && Elements(voters) <= s.stake.Keys
    requires Sum(s.stake, Elements(voters)) >= ThresholdFor(s, key.voteType)
    ensures var replies := Replies(s, VotesBy(s.stake, key, height, voters));
            && n < |replies| && replies[n].Certified? && IsFor(replies[n].certificate, key, height)
            && Elements(replies[n].certificate.voters) <= Elements(voters)
  {
    hide RefusalOf, Next, After, BucketSound, ReplyTo;
    assert voters != [] by {
      assert Elements([]) == {};
    }
    var last := |voters| - 1;
    LastVote(s.stake, key, height, voters);
    if Sum(s.stake, Elements(voters[..last])) < ThresholdFor(s, key.voteType) {
      CrossingCertifies(s, key, height, voters);
      return last;
    }
    n := QuorumCertifies(s, key, height, voters[..last]);
    var inputs := VotesBy(s.stake, key, height, voters);
    assert inputs[..last][..n] == inputs[..n];
  }

  // ----- The condition -----

  /** Two runs over one table, and the replies in which they certify. */
  datatype Fork = Fork(
    stake: map<ValidatorId, Word>,
    left: seq<Input>, leftReplies: seq<Reply>, m: nat,
    right: seq<Input>, rightReplies: seq<Reply>, n: nat)

  /** Conflicting certificates of types `t` and `u`, whose common voters hold at most the Byzantine bound. */
  ghost predicate Forks(
    f: Fork, confirm: Quorum, timeout: Quorum, total: Word, aggregate: seq<Bytes> -> Option<Bytes>, t: VoteType, u: VoteType)
  {
    && total > 0 && Total(f.stake) == total && Fresh(f.stake, confirm, timeout).Some?
    && IsRun(Fresh(f.stake, confirm, timeout).value, f.left, aggregate, f.leftReplies)
    && IsRun(Fresh(f.stake, confirm, timeout).value, f.right, aggregate, f.rightReplies)
    && f.m < |f.leftReplies| && f.leftReplies[f.m].Certified?
    && f.n < |f.rightReplies| && f.rightReplies[f.n].Certified?
    && var a, b := f.leftReplies[f.m].certificate, f.rightReplies[f.n].certificate;
    && a.voteType == t && b.voteType == u && Conflict(a, b)
    && Elements(a.voters) * Elements(b.voters) <= f.stake.Keys
    && Sum(f.stake, Elements(a.voters) * Elements(b.voters)) <= MaximumByzantine(total)
  }

  ghost predicate CanFork(
    confirm: Quorum, timeout: Quorum, total: Word, aggregate: seq<Bytes> -> Option<Bytes>, t: VoteType, u: VoteType)
  {
    exists f :: Forks(f, confirm, timeout, total, aggregate, t, u)
  }

  function ThresholdOf(th: (Word, Word), t: VoteType): Word {
    if t == Skip then th.1 else th.0
  }

  // The table of the fork: two equal halves, and one more validator if something is left over.
  const ALICE: ValidatorId := [65]
  const BOB: ValidatorId := [66]
  const CAROL: ValidatorId := [67]

  function Table(extra: Word, half: Word): map<ValidatorId, Word> {
    if extra == 0 then map[BOB := half, CAROL := half] else map[ALICE := extra, BOB := half, CAROL := half]
  }

  /** Those who vote on one side: its half, with the extra validator if it votes on both. */
  function Side(extra: Word, both: bool, v: ValidatorId): seq<ValidatorId> {
    if both && extra > 0 then [ALICE, v] else [v]
  }

  lemma SumOfTwo(w: map<ValidatorId, nat>, x: ValidatorId, y: ValidatorId)
    requires x in w && y in w && x != y
    ensures Sum(w, {x}) == w[x] && Sum(w, {x, y}) == w[x] + w[y]
  {
    assert {x} - {x} == {} && {x, y} - {y} == {x};
    SumRemove(w, {x}, x);
    SumRemove(w, {x, y}, y);
  }

  lemma TableSums(extra: Word, half: Word)
    requires half > 0 && extra + 2 * half <= MAX
    ensures var w := Table(extra, half);
            && ValidTable(w) && Total(w) == extra + 2 * half
            && Sum(w, {BOB}) == half && Sum(w, {CAROL}) == half
            && (extra > 0 ==> Sum(w, {ALICE}) == extra && Sum(w, {ALICE, BOB}) == extra + half && Sum(w, {ALICE, CAROL}) == extra + half)
  {
    var w := Table(extra, half);
    SumOfTwo(w, BOB, CAROL);
    SumOfTwo(w, CAROL, BOB);
    if extra > 0 {
      SumOfTwo(w, ALICE, BOB);
      SumOfTwo(w, ALICE, CAROL);
      assert w.Keys - {ALICE} == {BOB, CAROL};
      SumRemove(w, w.Keys, ALICE);
    } else {
      assert w.Keys == {BOB, CAROL};
    }
    assert ValidId(ALICE) && ValidId(BOB) && ValidId(CAROL) by {
      assert !IsSpace(ALICE[0]) && !IsSpace(BOB[0]) && !IsSpace(CAROL[0]);
    }
    assert forall v :: v in w ==> ValidEntry(w, v);
  }

  /** How much the two sides of the table hold, alone and together. */
  lemma SideSums(extra: Word, half: Word, both: bool)
    requires half > 0 && extra + 2 * half <= MAX
    ensures var w, l, r := Table(extra, half), Side(extra, both, BOB), Side(extra, both, CAROL);
            && Distinct(l) && Distinct(r) && Elements(l) <= w.Keys && Elements(r) <= w.Keys
            && Sum(w, Elements(l)) == half + (if both then extra else 0)
            && Sum(w, Elements(r)) == half + (if both then extra else 0)
            && Sum(w, Elements(l) * Elements(r)) == if both then extra else 0
  {
    var l, r := Side(extra, both, BOB), Side(extra, both, CAROL);
    TableSums(extra, half);
    if both && extra > 0 {
      assert Elements(l) == {ALICE, BOB} && Elements(r) == {ALICE, CAROL} && Elements(l) * Elements(r) == {ALICE};
    } else {
      assert Elements(l) == {BOB} && Elements(r) == {CAROL} && Elements(l) * Elements(r) == {};
    }
  }

  /** Any two sets of voters that both reach the threshold, and share at most the bound, can vote for blocks of
      their own in one slot and have both certified. */
  lemma SidesFork(
    w: map<ValidatorId, Word>, confirm: Quorum, timeout: Quorum, aggregate: seq<Bytes> -> Option<Bytes>, t: VoteType,
    l: seq<ValidatorId>, r: seq<ValidatorId>)
    requires Fresh(w, confirm, timeout).Some? && t != Unknown && Total(w) > 0
    requires Distinct(l) && Distinct(r) && Elements(l) <= w.Keys && Elements(r) <= w.Keys
    requires Sum(w, Elements(l)) >= ThresholdFor(Fresh(w, confirm, timeout).value, t)
    requires Sum(w, Elements(r)) >= ThresholdFor(Fresh(w, confirm, timeout).value, t)
    requires Sum(w, Elements(l) * Elements(r)) <= MaximumByzantine(Total(w))
    ensures CanFork(confirm, timeout, Total(w), aggregate, t, t)
  {
    hide Thresholds, Sound, Replies, IsRun, VotesBy, Sum;
    FreshSound(w, confirm, timeout);
    var s := Fresh(w, confirm, timeout).value;
    var one, two := VoteKey(7, t, 1), VoteKey(7, t, 2);
    var m := QuorumCertifies(s, one, 1, l);
    var n := QuorumCertifies(s, two, 1, r);
    RepliesAreRun(s, w, one, 1, l, aggregate);
    RepliesAreRun(s, w, two, 1, r, aggregate);
    var left, right := VotesBy(w, one, 1, l), VotesBy(w, two, 1, r);
    var f := Fork(w, left, Replies(s, left), m, right, Replies(s, right), n);
    var a, b := f.leftReplies[m].certificate, f.rightReplies[n].certificate;
    SumMonotone(w, Elements(a.voters) * Elements(b.voters), Elements(l) * Elements(r));
    assert Forks(f, confirm, timeout, Total(w), aggregate, t, t);
  }

  lemma ForkOnTable(
    confirm: Quorum, timeout: Quorum, aggregate: seq<Bytes> -> Option<Bytes>, t: VoteType,
    extra: Word, half: Word, both: bool)
    requires half > 0 && extra + 2 * half <= MAX && t != Unknown
    requires Thresholds(confirm, timeout, extra + 2 * half).Some?
    requires ThresholdOf(Thresholds(confirm, timeout, extra + 2 * half).value, t) <= half + (if both then extra else 0)
    requires both ==> extra <= MaximumByzantine(extra + 2 * half)
    ensures CanFork(confirm, timeout, extra + 2 * half, aggregate, t, t)
  {
    hide Thresholds, CanFork, Table, Side, Elements, Sum, Distinct;
    TableSums(extra, half);
    SideSums(extra, half, both);
    SidesFork(Table(extra, half), confirm, timeout, aggregate, t, Side(extra, both, BOB), Side(extra, both, CAROL));
  }

  lemma ForksWithout(confirm: Quorum, timeout: Quorum, total: Word, aggregate: seq<Bytes> -> Option<Bytes>, t: VoteType)
    requires Thresholds(confirm, timeout, total).Some? && t != Unknown
    requires 0 < total && 0 < ThresholdOf(Thresholds(confirm, timeout, total).value, t)
    requires 2 * ThresholdOf(Thresholds(confirm, timeout, total).value, t) <= total + MaximumByzantine(total)
    ensures CanFork(confirm, timeout, total, aggregate, t, t)
  {
    hide Thresholds, CanFork;
    var c := ThresholdOf(Thresholds(confirm, timeout, total).value, t);
    if 2 * c >= total {
      ForkOnTable(confirm, timeout, aggregate, t, 2 * c - total, total - c, true);
    } else {
      ForkOnTable(confirm, timeout, aggregate, t, total - 2 * c, c, false);
    }
  }

  /** An accepted pair of quorums gives thresholds above zero, and those of Confirm and Skip overlap. */
  lemma AcceptedThresholds(confirm: Quorum, timeout: Quorum, total: Word)
    requires Thresholds(confirm, timeout, total).Some?
    ensures var th := Thresholds(confirm, timeout, total).value;
            0 < total && 0 < th.0 && 0 < th.1 && th.0 + th.1 > total + MaximumByzantine(total)
  {
    RequiredStakeRange(confirm, total);
    RequiredStakeRange(timeout, total);
  }

  lemma OverlapForbids(
    f: Fork, confirm: Quorum, timeout: Quorum, total: Word, aggregate: seq<Bytes> -> Option<Bytes>, t: VoteType, u: VoteType)
    requires Forks(f, confirm, timeout, total, aggregate, t, u)
    requires Thresholds(confirm, timeout, total).Some?
    ensures var th := Thresholds(confirm, timeout, total).value;
            ThresholdOf(th, t) + ThresholdOf(th, u) <= total + MaximumByzantine(total)
  {
    hide Thresholds, IsRun;
    var th := Thresholds(confirm, timeout, total).value;
    if ThresholdOf(th, t) + ThresholdOf(th, u) > total + MaximumByzantine(total) {
      OverlapConvicts(f.stake, confirm, timeout, aggregate, f.left, f.leftReplies, f.m, f.right, f.rightReplies, f.n);
    }
  }

  /** For every accepted pair of quorums, every total stake and every two vote types of one phase: some table and
      two runs certify conflicting blocks while at most the Byzantine bound voted twice, exactly when the two
      thresholds do not overlap by more than that bound. For Confirm against Skip they always do. */
  lemma ForkExactlyWhen(
    confirm: Quorum, timeout: Quorum, total: Word, aggregate: seq<Bytes> -> Option<Bytes>, t: VoteType, u: VoteType)
    requires Thresholds(confirm, timeout, total).Some?
    requires t != Unknown && u != Unknown && PhaseOf(t) == PhaseOf(u)
    ensures total > 0
    ensures var th := Thresholds(confirm, timeout, total).value;
            CanFork(confirm, timeout, total, aggregate, t, u) <==>
            ThresholdOf(th, t) + ThresholdOf(th, u) <= total + MaximumByzantine(total)
  {
    hide Thresholds, Forks;
    AcceptedThresholds(confirm, timeout, total);
    var th := Thresholds(confirm, timeout, total).value;
    if CanFork(confirm, timeout, total, aggregate, t, u) {
      var f :| Forks(f, confirm, timeout, total, aggregate, t, u);
      OverlapForbids(f, confirm, timeout, total, aggregate, t, u);
    } else if ThresholdOf(th, t) + ThresholdOf(th, u) <= total + MaximumByzantine(total) {
      ForksWithout(confirm, timeout, total, aggregate, t);
    }
  }

  lemma HalfAndWhole()
    ensures Thresholds(Quorum(1, 2, false), Quorum(1, 1, false), 4) == Some((2, 4))
  {
    hide RequiredStake;
    assert RequiredStake(Quorum(1, 2, false), 4) == Some(2) by {
      HalfOfFour();
    }
    assert RequiredStake(Quorum(1, 1, false), 4) == Some(4) by {
      WholeOfFour();
    }
  }

  lemma HalfOfFour()
    ensures RequiredStake(Quorum(1, 2, false), 4) == Some(2)
  {
    RequiredStakeExact(Quorum(1, 2, false), 4);
  }

  lemma WholeOfFour()
    ensures RequiredStake(Quorum(1, 1, false), 4) == Some(4)
  {
    RequiredStakeExact(Quorum(1, 1, false), 4);
  }

  /** The constructor guards a Confirm against a Skip certificate only: it accepts a half confirm quorum with a
      unanimous timeout quorum, under which two nodes can certify different blocks of one slot. */
  lemma UnequalQuorumsMayFork(aggregate: seq<Bytes> -> Option<Bytes>)
    ensures Thresholds(Quorum(1, 2, false), Quorum(1, 1, false), 4) == Some((2, 4))
    ensures CanFork(Quorum(1, 2, false), Quorum(1, 1, false), 4, aggregate, Confirm, Confirm)
  {
    hide CanFork, Thresholds;
    HalfAndWhole();
    ForkExactlyWhen(Quorum(1, 2, false), Quorum(1, 1, false), 4, aggregate, Confirm, Confirm);
  }
}
