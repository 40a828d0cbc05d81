/** Votes, quorum thresholds, certificates and double-vote evidence. */
module Votes {

  import opened Arithmetic
  import opened Bytes
  import opened Wrappers
  import opened Uint64

  type Hash = nat

  const ZERO_HASH: Hash := 0

  type ValidatorId = Bytes

  const MAX_TEXT_LENGTH := 128
  const MAX_CERTIFICATE_VOTERS := 2048
  const BLS_SCHEME := "bls12-381-basic-g2sigg1"

  /** `Unknown` stands for every type code other than the three in use. */
  datatype VoteType = Unknown | Confirm | Skip | Prepare

  /** Confirm and Skip votes compete in one phase: a validator has one decision per slot. */
  datatype Phase = PreparePhase | DecisionPhase

  datatype Vote = Vote(
    voteType: VoteType,
    slot: nat,
    height: nat,
    hash: Hash,
    voter: ValidatorId,
    stake: nat,
    createdAt: int)

  function PhaseOf(t: VoteType): Phase {
    if t == Prepare then PreparePhase else DecisionPhase
  }

  predicate IsSpace(b: Byte) {
    9 <= b <= 13 || b == 32
  }

  /** An identifier must hold something besides white space and fit the text limit. */
  predicate ValidId(id: ValidatorId) {
    (exists i :: 0 <= i < |id| && !IsSpace(id[i])) && |id| <= MAX_TEXT_LENGTH
  }

  predicate ValidVote(v: Vote) {
    && v.voteType != Unknown
    && ValidId(v.voter)
    && v.stake != 0
    && v.createdAt > 0
    && v.hash != ZERO_HASH
    && v.height != 0
  }

  /** Two votes that together convict their voter of voting twice in one phase of one slot. */
  predicate ValidDoubleVote(first: Vote, second: Vote) {
    && ValidVote(first)
    && ValidVote(second)
    && first.voter == second.voter
    && first.slot == second.slot
    && PhaseOf(first.voteType) == PhaseOf(second.voteType)
    && !(first.voteType == second.voteType && first.height == second.height && first.hash == second.hash)
  }

  datatype Quorum = Quorum(numerator: Word, denominator: Word, strict: bool)

  const STRICT_TWO_THIRDS := Quorum(2, 3, true)

  /** The threshold as the machine computes it: every operation is on 64 bits. */
  function RequiredStake(q: Quorum, total: Word): Option<Word> {
    if q.numerator == 0 || q.denominator == 0 then None
    else if q.numerator > q.denominator then None
    else if total == 0 then None
    else if total > Quotient(WrapAdd(WrapSub(MAX, q.denominator), 1), q.numerator) then None
    else if q.strict then Some(WrapAdd(Quotient(WrapMul(total, q.numerator), q.denominator), 1))
    else Some(Quotient(WrapSub(WrapAdd(WrapMul(total, q.numerator), q.denominator), 1), q.denominator))
  }

  function Quotient(n: Word, d: Word): (r: Word)
    requires d > 0
  {
    FloorShrinks(n, d);
    n / d
  }

  lemma FloorPlusOneIsLeast(n: nat, d: nat, s: nat)
    requires d > 0
    ensures s >= n / d + 1 <==> s * d > n
  {
    var f := n / d;
    FloorBracket(n, d);
    assert (f + 1) * d == f * d + d;
    if s >= f + 1 {
      MulMonotone(f + 1, s, d);
    } else {
      MulMonotone(s, f, d);
    }
  }

  lemma CeilingIsLeast(n: nat, d: nat, s: nat)
    requires d > 0
    ensures s >= (n + d - 1) / d <==> s * d >= n
  {
    var f := (n + d - 1) / d;
    FloorBracket(n + d - 1, d);
    if s >= f {
      MulMonotone(f, s, d);
    } else {
      MulMonotone(s + 1, f, d);
      assert (s + 1) * d == s * d + d;
    }
  }

  /** The one input on which the final addition wraps: strictly more than the largest possible total. */
  predicate ThresholdWraps(q: Quorum, total: Word) {
    q == Quorum(1, 1, true) && total == MAX
  }

  /** The overflow guard keeps product and rounding inside 64 bits, all but the strict increment. */
  lemma RequiredStakeExact(q: Quorum, total: Word)
    requires RequiredStake(q, total).Some?
    ensures var n := total * q.numerator;
            RequiredStake(q, total).value ==
            if ThresholdWraps(q, total) then 0
            else if q.strict then n / q.denominator + 1
            else (n + q.denominator - 1) / q.denominator
  {
    var d := q.denominator;
    var bound := MAX - d + 1;
    FloorBracket(bound, q.numerator);
    MulMonotone(total, bound / q.numerator, q.numerator);
    FloorShrinks(total * q.numerator, d);
  }

  /** The stake `s` out of `total` reaches the quorum. */
  predicate Reaches(q: Quorum, s: nat, total: nat) {
    if q.strict then s * q.denominator > total * q.numerator
    else s * q.denominator >= total * q.numerator
  }

  /** The threshold is the least stake that reaches the quorum, on every input but the one that wraps. */
  lemma RequiredStakeIsLeast(q: Quorum, total: Word, s: nat)
    requires RequiredStake(q, total).Some? && !ThresholdWraps(q, total)
    ensures s >= RequiredStake(q, total).value <==> Reaches(q, s, total)
  {
    RequiredStakeExact(q, total);
    if q.strict {
      FloorPlusOneIsLeast(total * q.numerator, q.denominator, s);
    } else {
      CeilingIsLeast(total * q.numerator, q.denominator, s);
    }
  }

  lemma WholeReaches(q: Quorum, total: Word)
    requires 0 < q.numerator <= q.denominator && total > 0
    ensures !Reaches(q, 0, total) && Reaches(q, total + 1, total)
    ensures Reaches(q, total, total) <==> !(q.strict && q.numerator == q.denominator)
  {
    var n, d := q.numerator, q.denominator;
    MulMonotone(n, d, total);
    MulMonotone(1, n, total);
    assert (total + 1) * d == total * d + d;
    if n < d {
      MulMonotone(n + 1, d, total);
      assert (n + 1) * total == n * total + total;
    }
  }

  /** A threshold is positive exactly when it did not wrap, and exceeds the total only for the strict whole. */
  lemma RequiredStakeRange(q: Quorum, total: Word)
    requires RequiredStake(q, total).Some?
    ensures RequiredStake(q, total).value > 0 <==> !ThresholdWraps(q, total)
    ensures RequiredStake(q, total).value <= total + 1
    ensures RequiredStake(q, total).value == total + 1 <==>
            q.strict && q.numerator == q.denominator && !ThresholdWraps(q, total)
  {
    RequiredStakeExact(q, total);
    if !ThresholdWraps(q, total) {
      WholeReaches(q, total);
      RequiredStakeIsLeast(q, total, 0);
      RequiredStakeIsLeast(q, total, total);
      RequiredStakeIsLeast(q, total, total + 1);
    }
  }

  datatype Certificate = Certificate(
    voteType: VoteType,
    slot: nat,
    height: nat,
    hash: Hash,
    threshold: nat,
    confirmed: nat,
    voters: seq<ValidatorId>,
    createdAt: int,
    scheme: string,
    aggregate: Bytes,
    bitmap: seq<bv8>)

  predicate ValidAggregateFields(c: Certificate) {
    (c.scheme != "" || |c.aggregate| > 0 || |c.bitmap| > 0) ==>
      c.scheme == BLS_SCHEME && |c.aggregate| > 0 && |c.bitmap| > 0
  }

  /** The certificate's own fields are consistent; says nothing about who signed it. */
  ghost predicate ValidCertificate(c: Certificate) {
    && c.voteType != Unknown
    && c.hash != ZERO_HASH
    && c.height != 0
    && c.threshold != 0
    && c.confirmed >= c.threshold
    && 0 < |c.voters| <= MAX_CERTIFICATE_VOTERS
    && c.createdAt > 0
    && ValidAggregateFields(c)
    && ValidVoters(c.voters)
  }

  ghost predicate ValidVoters(voters: seq<ValidatorId>) {
    (forall i :: 0 <= i < |voters| ==> ValidId(voters[i])) && StrictlyAscending(voters)
  }

  /** One pass over neighbours decides whether the whole list is sorted, duplicate-free and well named. */
  method ValidateVoterList(voters: seq<ValidatorId>) returns (ok: bool)
    ensures ok <==> ValidVoters(voters)
  {
    var seen: set<ValidatorId> := {};
    var previous: ValidatorId := [];
    for index := 0 to |voters|
      invariant seen == set k | 0 <= k < index :: voters[k]
      invariant index > 0 ==> previous == voters[index - 1]
      invariant forall k :: 0 <= k < index ==> ValidId(voters[k])
      invariant forall k :: 0 <= k < index - 1 ==> Less(voters[k], voters[k + 1])
    {
      var id := voters[index];
      if !ValidId(id) {
        return false;
      }
      if index > 0 && AtMost(id, previous) {
        if Less(voters[index - 1], voters[index]) {
          LessAsymmetric(voters[index - 1], voters[index]);
        }
        return false;
      }
      if index > 0 {
        LessTotal(id, previous);
      }
      if id in seen {
        LessIrreflexive(id);
        return false;
      }
      seen := seen + {id};
      previous := id;
    }
    forall i, j | 0 <= i < j < |voters| ensures Less(voters[i], voters[j]) {
      NeighboursSuffice(voters, i, j);
    }
    return true;
  }

  /** The full field check, with the voter list decided by the loop above. */
  method ValidateCertificate(c: Certificate) returns (ok: bool)
    ensures ok <==> ValidCertificate(c)
  {
    if c.voteType == Unknown || c.hash == ZERO_HASH || c.height == 0 {
      return false;
    }
    if c.threshold == 0 || c.confirmed < c.threshold {
      return false;
    }
    if |c.voters| == 0 || |c.voters| > MAX_CERTIFICATE_VOTERS || c.createdAt <= 0 {
      return false;
    }
    if !ValidAggregateFields(c) {
      return false;
    }
    ok := ValidateVoterList(c.voters);
  }
}
