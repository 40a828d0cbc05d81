/** The vote collector of one node: votes in, certificates out. */
module Collector {

  import opened Bytes
  import opened Sums
  import opened Uint64
  import opened Votes
  import opened Wrappers
  import opened Bitmap

  datatype VoteKey = VoteKey(slot: nat, voteType: VoteType, hash: Hash)

  datatype ChoiceKey = ChoiceKey(slot: nat, phase: Phase, voter: ValidatorId)

  datatype Choice = Choice(voteType: VoteType, height: nat, hash: Hash)

  datatype Bucket = Bucket(
    height: nat,
    stake: Word,
    voters: set<ValidatorId>,
    signatures: map<ValidatorId, Bytes>,
    createdAt: int)

  datatype State = State(
    stake: map<ValidatorId, Word>,
    confirmThreshold: Word,
    timeoutThreshold: Word,
    total: Word,
    buckets: map<VoteKey, Bucket>,
    choices: map<ChoiceKey, Choice>)

  /** A vote as it reaches the collector; without a signature or an order it is a plain vote. */
  datatype Input = Input(vote: Vote, signature: Bytes, order: seq<ValidatorId>)

  datatype Refusal = InvalidVote | UnknownValidator | StakeMismatch | DuplicateVote | ConflictingVote | HeightMismatch

  datatype Reply = Refused(reason: Refusal) | Counted | Certified(certificate: Certificate) | AggregateFailed

  // ----- Construction -----

  ghost predicate ValidTable(stake: map<ValidatorId, Word>) {
    && stake != map[]
    && (forall v :: v in stake ==> ValidEntry(stake, v))
    && Total(stake) <= MAX
  }

  const EMPTY_BUCKET := Bucket(0, 0, {}, map[], 0)

  /** The guaranteed overlap of a confirm and a timeout certificate, as the machine computes it. */
  function IntersectionStake(confirm: Word, timeout: Word, total: Word): Word {
    if confirm > WrapSub(total, timeout) then WrapSub(confirm, WrapSub(total, timeout)) else 0
  }

  function MaximumByzantine(total: Word): Word
    requires total > 0
  {
    (total - 1) / 3
  }

  /** The two thresholds over a total stake, when the constructor accepts the pair. */
  function Thresholds(confirm: Quorum, timeout: Quorum, total: Word): Option<(Word, Word)> {
    var c := RequiredStake(confirm, total);
    var t := RequiredStake(timeout, total);
    if c.None? || t.None? then None
    else if IntersectionStake(c.value, t.value, total) <= MaximumByzantine(total) then None
    else Some((c.value, t.value))
  }

  /** The initial collector for a stake table and two quorums, when the constructor accepts them. */
  ghost function Fresh(stake: map<ValidatorId, Word>, confirm: Quorum, timeout: Quorum): Option<State> {
    if !ValidTable(stake) then None
    else
      var th := Thresholds(confirm, timeout, Total(stake));
      if th.None? then None else Some(State(stake, th.value.0, th.value.1, Total(stake), map[], map[]))
  }

  /** An accepted pair of thresholds overlaps by more than the Byzantine bound, wrap-around or not. */
  lemma HonestIntersection(stake: map<ValidatorId, Word>, confirm: Quorum, timeout: Quorum)
    requires Fresh(stake, confirm, timeout).Some?
    ensures var s := Fresh(stake, confirm, timeout).value;
            && 0 < s.timeoutThreshold <= s.total
            && 0 < s.confirmThreshold
            && s.confirmThreshold + s.timeoutThreshold - s.total > MaximumByzantine(s.total)
  {
    var s := Fresh(stake, confirm, timeout).value;
    RequiredStakeRange(confirm, s.total);
    RequiredStakeRange(timeout, s.total);
  }

  /** What the constructor accepts: both thresholds exist, the timeout threshold can be reached, and the two overlap by
      at least a third of the stake. */
  lemma AcceptedExactlyWhen(stake: map<ValidatorId, Word>, confirm: Quorum, timeout: Quorum)
    requires ValidTable(stake)
    ensures var total := Total(stake);
            var c, t := RequiredStake(confirm, total), RequiredStake(timeout, total);
            Fresh(stake, confirm, timeout).Some? <==>
            c.Some? && t.Some? && t.value <= total && 3 * (c.value + t.value - total) >= total
  {
    hide RequiredStake;
    var total := Total(stake);
    PositiveTotal(stake);
    if RequiredStake(confirm, total).Some? && RequiredStake(timeout, total).Some? {
      RequiredStakeRange(confirm, total);
      RequiredStakeRange(timeout, total);
    }
  }

  // ----- One step -----

  function KeyOf(v: Vote): VoteKey {
    VoteKey(v.slot, v.voteType, v.hash)
  }

  function ChoiceKeyOf(v: Vote): ChoiceKey {
    ChoiceKey(v.slot, PhaseOf(v.voteType), v.voter)
  }

  function ChoiceOf(v: Vote): Choice {
    Choice(v.voteType, v.height, v.hash)
  }

  function BucketAt(s: State, key: VoteKey): Bucket {
    if key in s.buckets then s.buckets[key] else EMPTY_BUCKET
  }

  function ThresholdFor(s: State, t: VoteType): Word {
    if t == Skip then s.timeoutThreshold else s.confirmThreshold
  }

  function RefusalOf(s: State, v: Vote): Option<Refusal> {
    if !ValidVote(v) then Some(InvalidVote)
    else if v.voter !in s.stake then Some(UnknownValidator)
    else if s.stake[v.voter] != v.stake then Some(StakeMismatch)
    else if ChoiceKeyOf(v) in s.choices then
      Some(if s.choices[ChoiceKeyOf(v)] == ChoiceOf(v) then DuplicateVote else ConflictingVote)
    else
      var b := BucketAt(s, KeyOf(v));
      if b.height != 0 && b.height != v.height then Some(HeightMismatch) else None
  }

  function Extended(b: Bucket, i: Input, stake: Word): Bucket {
    Bucket(
      i.vote.height,
      WrapAdd(b.stake, stake),
      b.voters + {i.vote.voter},
      if i.signature != [] then b.signatures[i.vote.voter := i.signature] else b.signatures,
      if i.vote.createdAt > b.createdAt then i.vote.createdAt else b.createdAt)
  }

  function Next(s: State, i: Input): State {
    if RefusalOf(s, i.vote).Some? then s
    else
      var key := KeyOf(i.vote);
      s.(buckets := s.buckets[key := Extended(BucketAt(s, key), i, s.stake[i.vote.voter])],
         choices := s.choices[ChoiceKeyOf(i.vote) := ChoiceOf(i.vote)])
  }

  function CertificateOf(key: VoteKey, b: Bucket, threshold: Word): Certificate {
    Certificate(key.voteType, key.slot, b.height, key.hash, threshold, b.stake, Sorted(b.voters), b.createdAt, "", [], [])
  }

  /** A vote completes a certificate when it carries its bucket over the threshold, or to the whole stake. */
  predicate Completes(s: State, i: Input)
    requires RefusalOf(s, i.vote).None?
  {
    var threshold := ThresholdFor(s, i.vote.voteType);
    var before := BucketAt(s, KeyOf(i.vote)).stake;
    var after := Next(s, i).buckets[KeyOf(i.vote)].stake;
    after >= threshold && !(before >= threshold && after < s.total)
  }

  /** The certificate a completing vote stands for, before any aggregation. */
  function PlainCertificate(s: State, i: Input): Certificate
    requires RefusalOf(s, i.vote).None?
  {
    CertificateOf(KeyOf(i.vote), Next(s, i).buckets[KeyOf(i.vote)], ThresholdFor(s, i.vote.voteType))
  }

  /** Everything a collector in state `s` may answer to an input. */
  ghost predicate Answers(s: State, i: Input, aggregate: seq<Bytes> -> Option<Bytes>, r: Reply) {
    if RefusalOf(s, i.vote).Some? then r == Refused(RefusalOf(s, i.vote).value)
    else if !Completes(s, i) then r == Counted
    else
      Issues(PlainCertificate(s, i), Next(s, i).buckets[KeyOf(i.vote)], i.order, aggregate, r)
  }

  /** A certificate goes out plain, or aggregated when an order is given and every voter signed. */
  ghost predicate Issues(
    plain: Certificate, b: Bucket, order: seq<ValidatorId>, aggregate: seq<Bytes> -> Option<Bytes>, r: Reply)
  {
    if order == [] || |b.signatures| != |b.voters| then r == Certified(plain)
    else
      || (r == AggregateFailed && Attaches(plain, order, b.signatures, aggregate, None))
      || (r.Certified? && Attaches(plain, order, b.signatures, aggregate, Some(r.certificate)))
  }

  /** The part of a certificate that aggregation leaves alone. */
  predicate SameCore(c: Certificate, d: Certificate) {
    c.(scheme := "", aggregate := [], bitmap := []) == d.(scheme := "", aggregate := [], bitmap := [])
  }

  lemma AnswerIsPlainCore(s: State, i: Input, aggregate: seq<Bytes> -> Option<Bytes>, r: Reply)
    requires Answers(s, i, aggregate, r) && r.Certified?
    ensures RefusalOf(s, i.vote).None? && Completes(s, i)
    ensures SameCore(r.certificate, PlainCertificate(s, i))
  {
  }

  // ----- What every step keeps -----

  ghost predicate BucketSound(s: State, key: VoteKey)
    requires key in s.buckets
  {
    var b := s.buckets[key];
    && key.voteType != Unknown && key.hash != ZERO_HASH && b.height != 0 && b.createdAt > 0
    && b.voters != {} && b.voters <= s.stake.Keys
    && b.stake == Sum(s.stake, b.voters)
    && b.signatures.Keys <= b.voters
    && forall v :: v in b.voters ==> Recorded(s, key, b.height, v)
  }

  /** The voter's one choice for the slot and phase is this bucket. */
  ghost predicate Recorded(s: State, key: VoteKey, height: nat, v: ValidatorId) {
    var k := ChoiceKey(key.slot, PhaseOf(key.voteType), v);
    k in s.choices && s.choices[k] == Choice(key.voteType, height, key.hash)
  }

  ghost predicate Sound(s: State) {
    && ValidTable(s.stake)
    && s.total == Total(s.stake)
    && s.confirmThreshold > 0 && s.timeoutThreshold > 0
    && forall key :: key in s.buckets ==> BucketSound(s, key)
  }

  lemma FreshSound(stake: map<ValidatorId, Word>, confirm: Quorum, timeout: Quorum)
    requires Fresh(stake, confirm, timeout).Some?
    ensures Sound(Fresh(stake, confirm, timeout).value)
  {
    HonestIntersection(stake, confirm, timeout);
  }

  /** A newly accepted voter is not in the bucket yet, so the sum cannot overflow. */
  lemma AcceptedVoterIsNew(s: State, i: Input)
    requires Sound(s) && RefusalOf(s, i.vote).None?
    ensures var b := BucketAt(s, KeyOf(i.vote));
            && b.voters <= s.stake.Keys && i.vote.voter !in b.voters
            && b.stake == Sum(s.stake, b.voters)
            && Sum(s.stake, b.voters + {i.vote.voter}) == b.stake + s.stake[i.vote.voter] <= s.total
  {
    var key := KeyOf(i.vote);
    var b := BucketAt(s, key);
    assert key in s.buckets ==> BucketSound(s, key);
    assert i.vote.voter in b.voters ==> Recorded(s, key, b.height, i.vote.voter);
    SumAdd(s.stake, b.voters, i.vote.voter);
    SumMonotone(s.stake, b.voters + {i.vote.voter}, s.stake.Keys);
  }

  /** An accepted vote adds its voter and the voter's registered stake to its bucket; the 64-bit sum does not wrap. */
  lemma NextBucket(s: State, i: Input)
    requires Sound(s) && RefusalOf(s, i.vote).None?
    ensures var key := KeyOf(i.vote);
            && key in Next(s, i).buckets && Next(s, i).buckets[key].height == i.vote.height
            && Next(s, i).buckets[key].voters == BucketAt(s, key).voters + {i.vote.voter}
            && Next(s, i).buckets[key].stake == BucketAt(s, key).stake + s.stake[i.vote.voter]
  {
    hide RefusalOf, Sum;
    RegisteredIfAccepted(s, i.vote);
    AcceptedVoterIsNew(s, i);
  }

  lemma NextKeepsOthers(s: State, i: Input, key: VoteKey)
    requires Sound(s) && RefusalOf(s, i.vote).None? && key in s.buckets && key != KeyOf(i.vote)
    ensures BucketSound(Next(s, i), key)
  {
    var s' := Next(s, i);
    var b := s.buckets[key];
    forall v | v in b.voters ensures Recorded(s', key, b.height, v) {
      assert Recorded(s, key, b.height, v);
    }
  }

  lemma NextKeepsOwn(s: State, i: Input)
    requires Sound(s) && RefusalOf(s, i.vote).None?
    ensures BucketSound(Next(s, i), KeyOf(i.vote))
  {
    var key := KeyOf(i.vote);
    var s' := Next(s, i);
    var b := BucketAt(s, key);
    AcceptedVoterIsNew(s, i);
    forall v | v in s'.buckets[key].voters ensures Recorded(s', key, i.vote.height, v) {
      if v != i.vote.voter {
        assert Recorded(s, key, b.height, v);
      }
    }
  }

  lemma NextSound(s: State, i: Input)
    requires Sound(s)
    ensures Sound(Next(s, i))
  {
    if RefusalOf(s, i.vote).None? {
      NextKeepsOwn(s, i);
      forall key | key in s.buckets && key != KeyOf(i.vote) ensures BucketSound(Next(s, i), key) {
        NextKeepsOthers(s, i, key);
      }
    }
  }

  // ----- Runs -----

  function After(s: State, inputs: seq<Input>): State {
    if inputs == [] then s else Next(After(s, inputs[..|inputs| - 1]), inputs[|inputs| - 1])
  }

  /** The replies a collector gave over a whole run. */
  ghost predicate IsRun(s: State, inputs: seq<Input>, aggregate: seq<Bytes> -> Option<Bytes>, replies: seq<Reply>) {
    && |replies| == |inputs|
    && forall n :: 0 <= n < |inputs| ==> Answers(After(s, inputs[..n]), inputs[n], aggregate, replies[n])
  }

  lemma {:induction false} RunSound(s: State, inputs: seq<Input>)
    requires Sound(s)
    ensures Sound(After(s, inputs))
    ensures var e := After(s, inputs);
            e.stake == s.stake && e.total == s.total &&
            e.confirmThreshold == s.confirmThreshold && e.timeoutThreshold == s.timeoutThreshold
  {
    if inputs != [] {
      var rest := inputs[..|inputs| - 1];
      RunSound(s, rest);
      NextSound(After(s, rest), inputs[|inputs| - 1]);
    }
  }

  /** Input `n` of the run was accepted as the voter's choice for slot and phase `k`. */
  ghost predicate AcceptedAt(s: State, inputs: seq<Input>, n: nat, k: ChoiceKey) {
    n < |inputs| && RefusalOf(After(s, inputs[..n]), inputs[n].vote).None? && ChoiceKeyOf(inputs[n].vote) == k
  }

  /** The recorded choice for a voter, slot and phase is that of the one input accepted for it. */
  lemma {:induction false} ChoicesRemember(s: State, inputs: seq<Input>, k: ChoiceKey)
    requires s.choices == map[]
    ensures k in After(s, inputs).choices <==> exists n: nat :: AcceptedAt(s, inputs, n, k)
    ensures forall n: nat :: AcceptedAt(s, inputs, n, k) ==>
              k in After(s, inputs).choices && After(s, inputs).choices[k] == ChoiceOf(inputs[n].vote)
  {
    if inputs != [] {
      hide RefusalOf, Next, AcceptedAt;
      var last := |inputs| - 1;
      var front, i := inputs[..last], inputs[last];
      ChoicesRemember(s, front, k);
      forall n: nat ensures AcceptedAt(s, inputs, n, k) ==> n == last || AcceptedAt(s, front, n, k) {
        AcceptedEarlier(s, inputs, n, k);
      }
      forall n: nat | AcceptedAt(s, front, n, k) ensures n < last && AcceptedAt(s, inputs, n, k) {
        AcceptedEarlier(s, inputs, n, k);
      }
      AcceptedLast(s, inputs, k);
      ChoiceStep(After(s, front), i, k);
    }
  }

  lemma AcceptedEarlier(s: State, inputs: seq<Input>, n: nat, k: ChoiceKey)
    requires inputs != []
    ensures AcceptedAt(s, inputs[..|inputs| - 1], n, k) ==> n < |inputs| - 1
    ensures n < |inputs| - 1 ==> (AcceptedAt(s, inputs, n, k) <==> AcceptedAt(s, inputs[..|inputs| - 1], n, k))
    ensures AcceptedAt(s, inputs, n, k) ==> n < |inputs|
  {
    hide RefusalOf, After;
    if n < |inputs| - 1 {
      assert inputs[..|inputs| - 1][..n] == inputs[..n];
    }
  }

  lemma AcceptedLast(s: State, inputs: seq<Input>, k: ChoiceKey)
    requires inputs != []
    ensures var last := |inputs| - 1;
            AcceptedAt(s, inputs, last, k) <==>
            RefusalOf(After(s, inputs[..last]), inputs[last].vote).None? && ChoiceKeyOf(inputs[last].vote) == k
  {
  }

  lemma ChoiceStep(s: State, i: Input, k: ChoiceKey)
    ensures var taken := RefusalOf(s, i.vote).None? && ChoiceKeyOf(i.vote) == k;
            && (taken ==> k !in s.choices && k in Next(s, i).choices && Next(s, i).choices[k] == ChoiceOf(i.vote))
            && (!taken ==> (k in Next(s, i).choices <==> k in s.choices) && (k in s.choices ==> Next(s, i).choices[k] == s.choices[k]))
  {
    hide Extended, ValidVote;
  }

  /** One decision per validator, slot and phase: after any run a valid vote of a registered stake is refused as a
      duplicate, or as conflicting, exactly when an earlier vote of its voter for the slot and phase was accepted
      for the same choice, or for another one. */
  lemma SecondVoteRefused(s: State, inputs: seq<Input>, v: Vote)
    requires s.choices == map[] && Sound(s)
    requires ValidVote(v) && v.voter in s.stake && s.stake[v.voter] == v.stake
    ensures var r := RefusalOf(After(s, inputs), v);
            && (r == Some(DuplicateVote) <==>
                exists n: nat :: AcceptedAt(s, inputs, n, ChoiceKeyOf(v)) && ChoiceOf(inputs[n].vote) == ChoiceOf(v))
            && (r == Some(ConflictingVote) <==>
                exists n: nat :: AcceptedAt(s, inputs, n, ChoiceKeyOf(v)) && ChoiceOf(inputs[n].vote) != ChoiceOf(v))
  {
    hide AcceptedAt, After, Sound, ValidVote;
    RunSound(s, inputs);
    ChoicesRemember(s, inputs, ChoiceKeyOf(v));
  }

  /** Over every run a voter is in at most one bucket per slot and phase. */
  lemma OneBucketPerPhase(s: State, inputs: seq<Input>, a: VoteKey, b: VoteKey, v: ValidatorId)
    requires Sound(s)
    requires var e := After(s, inputs);
             a in e.buckets && b in e.buckets && v in e.buckets[a].voters && v in e.buckets[b].voters
    requires a.slot == b.slot && PhaseOf(a.voteType) == PhaseOf(b.voteType)
    ensures a == b
  {
    RunSound(s, inputs);
    var e := After(s, inputs);
    assert Recorded(e, a, e.buckets[a].height, v);
    assert Recorded(e, b, e.buckets[b].height, v);
  }

  /** Over every run a bucket's stake is exactly its voters' registered stake, and never overflows. */
  lemma BucketStakeIsTrue(s: State, inputs: seq<Input>, key: VoteKey)
    requires Sound(s) && key in After(s, inputs).buckets
    ensures var b := After(s, inputs).buckets[key];
            && b.voters <= s.stake.Keys && b.stake == Sum(s.stake, b.voters) <= s.total
  {
    RunSound(s, inputs);
    var e := After(s, inputs);
    assert BucketSound(e, key);
    SumMonotone(s.stake, e.buckets[key].voters, s.stake.Keys);
  }

  /** Every plain certificate passes the field check when the table holds at most 2048 validators. */
  lemma PlainCertificateValid(s: State, i: Input)
    requires Sound(s) && RefusalOf(s, i.vote).None? && Completes(s, i)
    requires |s.stake| <= MAX_CERTIFICATE_VOTERS
    ensures ValidCertificate(PlainCertificate(s, i))
  {
    NextSound(s, i);
    var b := Next(s, i).buckets[KeyOf(i.vote)];
    assert BucketSound(Next(s, i), KeyOf(i.vote));
    SubsetSize(b.voters, s.stake.Keys);
    SortedVotersValid(s.stake, b.voters);
    assert PlainCertificate(s, i).voters == Sorted(b.voters);
  }

  lemma SortedVotersValid(stake: map<ValidatorId, Word>, voters: set<ValidatorId>)
    requires ValidTable(stake) && voters <= stake.Keys
    ensures ValidVoters(Sorted(voters))
  {
    var list := Sorted(voters);
    forall k | 0 <= k < |list| ensures ValidId(list[k]) {
      assert list[k] in voters;
      assert ValidEntry(stake, list[k]);
    }
  }

  lemma {:induction false} SubsetSize<T>(a: set<T>, b: set<T>)
    requires a <= b
    ensures |a| <= |b|
  {
    if a != {} {
      var x :| x in a;
      SubsetSize(a - {x}, b - {x});
    }
  }

  // ----- The collector object -----

  lemma SumOneMore(stake: map<ValidatorId, Word>, left: set<ValidatorId>, v: ValidatorId)
    requires v in left && left <= stake.Keys
    ensures Sum(stake, stake.Keys - (left - {v})) == Sum(stake, stake.Keys - left) + stake[v] <= Total(stake)
  {
    var done := stake.Keys - left;
    SumAdd(stake, done, v);
    SumMonotone(stake, done + {v}, stake.Keys);
    assert stake.Keys - (left - {v}) == done + {v};
  }

  predicate ValidEntry(stake: map<ValidatorId, Word>, v: ValidatorId)
    requires v in stake
  {
    ValidId(v) && stake[v] > 0
  }

  /** Adds up the table and checks it, in whatever order the map yields its entries. */
  method NormalizeStake(stake: map<ValidatorId, Word>) returns (total: Option<Word>)
    ensures total.Some? <==> ValidTable(stake)
    ensures total.Some? ==> total.value == Total(stake)
  {
    if stake == map[] {
      return None;
    }
    var left := stake.Keys;
    var sum: Word := 0;
    while left != {}
      invariant left <= stake.Keys
      invariant forall v :: v in stake && v !in left ==> ValidEntry(stake, v)
      invariant sum == Sum(stake, stake.Keys - left)
      decreases |left|
    {
      var v :| v in left;
      if !ValidEntry(stake, v) {
        return None;
      }
      SumOneMore(stake, left, v);
      if MAX - sum < stake[v] {
        return None;
      }
      sum := sum + stake[v];
      left := left - {v};
    }
    assert stake.Keys - left == stake.Keys;
    return Some(sum);
  }

  method Issue(
    plain: Certificate, b: Bucket, order: seq<ValidatorId>, aggregate: seq<Bytes> -> Option<Bytes>)
    returns (r: Reply)
    ensures Issues(plain, b, order, aggregate, r)
  {
    if order == [] || |b.signatures| != |b.voters| {
      return Certified(plain);
    }
    var attached := AttachAggregate(plain, order, b.signatures, aggregate);
    if attached.None? {
      return AggregateFailed;
    }
    return Certified(attached.value);
  }

  class VoteCollector {
    const validatorStake: map<ValidatorId, Word>
    const confirmThreshold: Word
    const timeoutThreshold: Word
    const total: Word
    var buckets: map<VoteKey, Bucket>
    var choices: map<ChoiceKey, Choice>

    function Abstract(): State
      reads this
    {
      State(validatorStake, confirmThreshold, timeoutThreshold, total, buckets, choices)
    }

    constructor (stake: map<ValidatorId, Word>, confirm: Word, timeout: Word, sum: Word)
      ensures Abstract() == State(stake, confirm, timeout, sum, map[], map[])
    {
      validatorStake, confirmThreshold, timeoutThreshold, total := stake, confirm, timeout, sum;
      buckets, choices := map[], map[];
    }

    /** Refuses bad tables, bad quorums and threshold pairs without an honest intersection. */
    static method New(stake: map<ValidatorId, Word>, confirm: Quorum, timeout: Quorum)
      returns (collector: VoteCollector?)
      ensures collector != null <==> Fresh(stake, confirm, timeout).Some?
      ensures collector != null ==> fresh(collector) && collector.Abstract() == Fresh(stake, confirm, timeout).value
      ensures collector != null ==> Sound(collector.Abstract())
    {
      var sum := NormalizeStake(stake);
      if sum.None? {
        return null;
      }
      var c := RequiredStake(confirm, sum.value);
      var t := RequiredStake(timeout, sum.value);
      if c.None? || t.None? {
        return null;
      }
      var intersection: Word := 0;
      if c.value > WrapSub(sum.value, t.value) {
        intersection := WrapSub(c.value, WrapSub(sum.value, t.value));
      }
      PositiveTotal(stake);
      if intersection <= MaximumByzantine(sum.value) {
        return null;
      }
      collector := new VoteCollector(stake, c.value, t.value, sum.value);
      FreshSound(stake, confirm, timeout);
    }

    /** Counts a vote: at most one choice per validator, slot and phase; answers with a certificate when the
        vote crosses the threshold or completes the whole stake. A refused vote changes nothing. */
    method AddVote(i: Input, aggregate: seq<Bytes> -> Option<Bytes>) returns (r: Reply)
      modifies this
      ensures Abstract() == Next(old(Abstract()), i)
      ensures Answers(old(Abstract()), i, aggregate, r)
    {
      hide RefusalOf, Extended, Issues, CertificateOf;
      var v := i.vote;
      var refusal := Refusal(v);
      if refusal.Some? {
        return Refused(refusal.value);
      }
      RegisteredIfAccepted(Abstract(), v);
      var key := VoteKey(v.slot, v.voteType, v.hash);
      var previous := if key in buckets then buckets[key] else EMPTY_BUCKET;
      var bucket := Grow(previous, i, validatorStake[v.voter]);
      buckets := buckets[key := bucket];
      choices := choices[ChoiceKey(v.slot, PhaseOf(v.voteType), v.voter) := Choice(v.voteType, v.height, v.hash)];
      var threshold := if v.voteType == Skip then timeoutThreshold else confirmThreshold;
      if bucket.stake < threshold {
        return Counted;
      }
      if previous.stake >= threshold && bucket.stake < total {
        return Counted;
      }
      r := Issue(CertificateOf(key, bucket, threshold), bucket, i.order, aggregate);
    }

    /** The checks a vote must pass, in the order they are made. */
    method Refusal(v: Vote) returns (r: Option<Refusal>)
      ensures r == RefusalOf(Abstract(), v)
    {
      hide ValidVote;
      if !ValidVote(v) {
        return Some(InvalidVote);
      }
      if v.voter !in validatorStake {
        return Some(UnknownValidator);
      }
      if validatorStake[v.voter] != v.stake {
        return Some(StakeMismatch);
      }
      var choiceKey := ChoiceKey(v.slot, PhaseOf(v.voteType), v.voter);
      if choiceKey in choices {
        var existing := choices[choiceKey];
        if existing.voteType == v.voteType && existing.height == v.height && existing.hash == v.hash {
          return Some(DuplicateVote);
        }
        return Some(ConflictingVote);
      }
      var key := VoteKey(v.slot, v.voteType, v.hash);
      if key in buckets && buckets[key].height != 0 && buckets[key].height != v.height {
        return Some(HeightMismatch);
      }
      return None;
    }
  }

  /** A bucket with one more vote in it. */
  method Grow(b: Bucket, i: Input, registered: Word) returns (bucket: Bucket)
    ensures bucket == Extended(b, i, registered)
  {
    bucket := b.(stake := WrapAdd(b.stake, registered), height := i.vote.height, voters := b.voters + {i.vote.voter});
    if |i.signature| > 0 {
      bucket := bucket.(signatures := bucket.signatures[i.vote.voter := i.signature]);
    }
    if i.vote.createdAt > bucket.createdAt {
      bucket := bucket.(createdAt := i.vote.createdAt);
    }
  }

  lemma RegisteredIfAccepted(s: State, v: Vote)
    requires RefusalOf(s, v).None?
    ensures v.voter in s.stake
  {
  }

  lemma PositiveTotal(stake: map<ValidatorId, Word>)
    requires ValidTable(stake)
    ensures Total(stake) > 0
  {
    var v :| v in stake;
    SumRemove(stake, stake.Keys, v);
  }
}
