/** Conflicting certificates convict more than a third of the stake, whichever nodes produced them. */
module AccountableSafety {

  import opened Bytes
  import opened Sums
  import opened Uint64
  import opened Votes
  import opened Wrappers
  import opened Collector

  /** Some input of the run is a valid vote of `v` for exactly this bucket and height. */
  ghost predicate Cast(inputs: seq<Input>, key: VoteKey, height: nat, v: ValidatorId) {
    exists n :: 0 <= n < |inputs| && IsVoteFor(inputs[n].vote, key, height, v)
  }

  predicate IsVoteFor(w: Vote, key: VoteKey, height: nat, v: ValidatorId) {
    ValidVote(w) && w.voter == v && KeyOf(w) == key && w.height == height
  }

  lemma {:induction false} VotersCast(s: State, inputs: seq<Input>, key: VoteKey, v: ValidatorId)
    requires Sound(s) && s.buckets == map[]
    requires key in After(s, inputs).buckets && v in After(s, inputs).buckets[key].voters
    ensures Cast(inputs, key, After(s, inputs).buckets[key].height, v)
  {
    hide ValidTable, Recorded;
    if inputs != [] {
      var rest := inputs[..|inputs| - 1];
      var i := inputs[|inputs| - 1];
      var e := After(s, rest);
      RunSound(s, rest);
      assert inputs == rest + [i];
      if RefusalOf(e, i.vote).None? && key == KeyOf(i.vote) && v == i.vote.voter {
        assert IsVoteFor(inputs[|inputs| - 1].vote, key, i.vote.height, v);
      } else {
        assert key in e.buckets ==> BucketSound(e, key);
        VotersCast(s, rest, key, v);
        var n :| 0 <= n < |rest| && IsVoteFor(rest[n].vote, key, e.buckets[key].height, v);
        assert inputs[n] == rest[n];
      }
    }
  }

  /** What backs a certificate: its voters' registered stake, over the threshold, and a vote from each. */
  ghost predicate Backed(s: State, inputs: seq<Input>, c: Certificate) {
    && c.voteType != Unknown
    && Elements(c.voters) <= s.stake.Keys
    && c.confirmed == Sum(s.stake, Elements(c.voters))
    && c.confirmed >= ThresholdFor(s, c.voteType)
    && forall v :: v in c.voters ==> Cast(inputs, VoteKey(c.slot, c.voteType, c.hash), c.height, v)
  }

  lemma ExtendCast(inputs: seq<Input>, n: nat, key: VoteKey, height: nat, v: ValidatorId)
    requires n <= |inputs| && Cast(inputs[..n], key, height, v)
    ensures Cast(inputs, key, height, v)
  {
    var k :| 0 <= k < n && IsVoteFor(inputs[..n][k].vote, key, height, v);
    assert inputs[k] == inputs[..n][k];
  }

  lemma CertificateBacked(
    s: State, inputs: seq<Input>, aggregate: seq<Bytes> -> Option<Bytes>, replies: seq<Reply>, n: nat)
    requires Sound(s) && s.buckets == map[] && IsRun(s, inputs, aggregate, replies)
    requires n < |replies| && replies[n].Certified?
    ensures Backed(s, inputs, replies[n].certificate)
  {
    hide After, Sound, Answers, Sorted, Cast, ThresholdFor, Sum;
    var c := replies[n].certificate;
    var run := inputs[..n + 1];
    var key := IssuedFor(s, inputs, aggregate, replies, n);
    var e := After(s, run);
    assert Elements(c.voters) == e.buckets[key].voters;
    forall v | v in c.voters ensures Cast(inputs, VoteKey(c.slot, c.voteType, c.hash), c.height, v) {
      VotersCast(s, run, key, v);
      ExtendCast(inputs, n + 1, key, e.buckets[key].height, v);
    }
  }

  /** A certificate comes from the bucket its vote went to, over the threshold and at its true stake. */
  lemma IssuedFor(s: State, inputs: seq<Input>, aggregate: seq<Bytes> -> Option<Bytes>, replies: seq<Reply>, n: nat)
    returns (key: VoteKey)
    requires Sound(s) && s.buckets == map[] && IsRun(s, inputs, aggregate, replies)
    requires n < |replies| && replies[n].Certified?
    ensures var c, e := replies[n].certificate, After(s, inputs[..n + 1]);
            && key in e.buckets && key == VoteKey(c.slot, c.voteType, c.hash) && c.height == e.buckets[key].height
            && c.voters == Sorted(e.buckets[key].voters) && c.voteType != Unknown
            && e.buckets[key].voters <= s.stake.Keys && c.confirmed == Sum(s.stake, e.buckets[key].voters)
            && c.confirmed >= ThresholdFor(s, c.voteType)
  {
    var e := After(s, inputs[..n]);
    var i := inputs[n];
    AnswerIsPlainCore(e, i, aggregate, replies[n]);
    assert inputs[..n + 1][..n] == inputs[..n];
    var next := After(s, inputs[..n + 1]);
    assert next == Next(e, i);
    RunSound(s, inputs[..n + 1]);
    key := KeyOf(i.vote);
    assert BucketSound(next, key);
  }

  /** Two certificates that cannot both stand: one phase of one slot, different outcomes. */
  predicate Conflict(a: Certificate, b: Certificate) {
    && a.slot == b.slot
    && (a.voteType == Prepare <==> b.voteType == Prepare)
    && !(a.voteType == b.voteType && a.height == b.height && a.hash == b.hash)
  }

  predicate ConfirmAgainstSkip(a: Certificate, b: Certificate) {
    (a.voteType == Confirm && b.voteType == Skip) || (a.voteType == Skip && b.voteType == Confirm)
  }

  /** Votes of one validator, one in each run, that pass as double-vote evidence. */
  ghost predicate Convicted(left: seq<Input>, right: seq<Input>, v: ValidatorId) {
    exists m, n :: 0 <= m < |left| && 0 <= n < |right| && left[m].vote.voter == v &&
      ValidDoubleVote(left[m].vote, right[n].vote)
  }

  lemma CommonVoterConvicted(left: seq<Input>, right: seq<Input>, a: Certificate, b: Certificate, v: ValidatorId)
    requires Conflict(a, b)
    requires Cast(left, VoteKey(a.slot, a.voteType, a.hash), a.height, v)
    requires Cast(right, VoteKey(b.slot, b.voteType, b.hash), b.height, v)
    ensures Convicted(left, right, v)
  {
    var m :| 0 <= m < |left| && IsVoteFor(left[m].vote, VoteKey(a.slot, a.voteType, a.hash), a.height, v);
    var n :| 0 <= n < |right| && IsVoteFor(right[n].vote, VoteKey(b.slot, b.voteType, b.hash), b.height, v);
    assert ValidDoubleVote(left[m].vote, right[n].vote);
  }

  lemma OverlapExceeds(stake: map<ValidatorId, Word>, a: set<ValidatorId>, b: set<ValidatorId>, bound: nat)
    requires a <= stake.Keys && b <= stake.Keys
    requires Sum(stake, a) + Sum(stake, b) > Total(stake) + bound
    ensures Sum(stake, a * b) > bound
  {
    SumOverlap(stake, a, b);
    SumMonotone(stake, a + b, stake.Keys);
  }

  /** The general form: any two conflicting certificates whose thresholds overlap by more than the bound. */
  lemma ConflictConvicts(
    s: State, left: seq<Input>, right: seq<Input>, a: Certificate, b: Certificate)
    requires Sound(s) && Backed(s, left, a) && Backed(s, right, b) && Conflict(a, b)
    requires ThresholdFor(s, a.voteType) + ThresholdFor(s, b.voteType) > s.total + MaximumByzantine(s.total)
    ensures Sum(s.stake, Elements(a.voters) * Elements(b.voters)) > MaximumByzantine(s.total)
    ensures forall v :: v in Elements(a.voters) * Elements(b.voters) ==> Convicted(left, right, v)
  {
    OverlapExceeds(s.stake, Elements(a.voters), Elements(b.voters), MaximumByzantine(s.total));
    forall v | v in Elements(a.voters) * Elements(b.voters) ensures Convicted(left, right, v) {
      CommonVoterConvicted(left, right, a, b, v);
    }
  }

  /** The thresholds of two vote types add up to more than the whole and the Byzantine bound. */
  predicate Overlap(s: State, t: VoteType, u: VoteType)
    requires s.total > 0
  {
    ThresholdFor(s, t) + ThresholdFor(s, u) > s.total + MaximumByzantine(s.total)
  }

  /** Any two conflicting certificates of any two runs, for a table and quorums the constructor accepts: if the
      thresholds of their types overlap by more than the bound, the common voters hold more than the bound and
      each of them is convicted by two votes of the runs. */
  lemma OverlapConvicts(
    stake: map<ValidatorId, Word>, confirm: Quorum, timeout: Quorum,
    aggregate: seq<Bytes> -> Option<Bytes>,
    left: seq<Input>, leftReplies: seq<Reply>, m: nat,
    right: seq<Input>, rightReplies: seq<Reply>, n: nat)
    requires Fresh(stake, confirm, timeout).Some?
    requires var s := Fresh(stake, confirm, timeout).value;
             IsRun(s, left, aggregate, leftReplies) && IsRun(s, right, aggregate, rightReplies)
    requires m < |leftReplies| && leftReplies[m].Certified?
    requires n < |rightReplies| && rightReplies[n].Certified?
    requires Conflict(leftReplies[m].certificate, rightReplies[n].certificate)
    requires var s := Fresh(stake, confirm, timeout).value;
             s.total > 0 && Overlap(s, leftReplies[m].certificate.voteType, rightReplies[n].certificate.voteType)
    ensures var common := Elements(leftReplies[m].certificate.voters) * Elements(rightReplies[n].certificate.voters);
            && common <= stake.Keys
            && Sum(stake, common) > MaximumByzantine(Total(stake))
            && forall v :: v in common ==> Convicted(left, right, v)
  {
    var s := Fresh(stake, confirm, timeout).value;
    FreshSound(stake, confirm, timeout);
    CertificateBacked(s, left, aggregate, leftReplies, m);
    CertificateBacked(s, right, aggregate, rightReplies, n);
    ConflictConvicts(s, left, right, leftReplies[m].certificate, rightReplies[n].certificate);
  }

  /** Confirm and Skip always overlap; with equal quorums all types do. */
  lemma AcceptedOverlap(stake: map<ValidatorId, Word>, confirm: Quorum, timeout: Quorum, t: VoteType, u: VoteType)
    requires Fresh(stake, confirm, timeout).Some? && Total(stake) > 0
    requires confirm == timeout || (t == Confirm && u == Skip) || (t == Skip && u == Confirm)
    ensures Overlap(Fresh(stake, confirm, timeout).value, t, u)
  {
    hide RequiredStake;
    HonestIntersection(stake, confirm, timeout);
  }

  /** Accountable safety. For every stake table and quorum pair the constructor accepts, and any two runs of
      any two collectors: if they issue a Confirm and a Skip certificate for one slot - or, with equal
      quorums, any two conflicting certificates - then the common voters hold more than the Byzantine
      bound, and each of them is convicted by two votes of the runs. */
  lemma AccountableSafetyTheorem(
    stake: map<ValidatorId, Word>, confirm: Quorum, timeout: Quorum,
    aggregate: seq<Bytes> -> Option<Bytes>,
    left: seq<Input>, leftReplies: seq<Reply>, m: nat,
    right: seq<Input>, rightReplies: seq<Reply>, n: nat)
    requires Fresh(stake, confirm, timeout).Some?
    requires var s := Fresh(stake, confirm, timeout).value;
             IsRun(s, left, aggregate, leftReplies) && IsRun(s, right, aggregate, rightReplies)
    requires m < |leftReplies| && leftReplies[m].Certified?
    requires n < |rightReplies| && rightReplies[n].Certified?
    requires Conflict(leftReplies[m].certificate, rightReplies[n].certificate)
    requires confirm == timeout ||
             ConfirmAgainstSkip(leftReplies[m].certificate, rightReplies[n].certificate)
    ensures Total(stake) > 0
    ensures var common := Elements(leftReplies[m].certificate.voters) * Elements(rightReplies[n].certificate.voters);
            && common <= stake.Keys
            && Sum(stake, common) > MaximumByzantine(Total(stake))
            && forall v :: v in common ==> Convicted(left, right, v)
  {
    hide Thresholds, IsRun, Convicted, Sum, Overlap;
    PositiveTotal(stake);
    AcceptedOverlap(stake, confirm, timeout, leftReplies[m].certificate.voteType, rightReplies[n].certificate.voteType);
    OverlapConvicts(stake, confirm, timeout, aggregate, left, leftReplies, m, right, rightReplies, n);
  }
}
