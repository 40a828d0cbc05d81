/** Proposals that skip a slot, and why they cannot skip a confirmed one. */
module TimeoutCertificates {

  import opened Bytes
  import opened Sums
  import opened Uint64
  import opened Votes
  import opened Wrappers
  import opened Bitmap

  datatype Member = Member(id: ValidatorId, stake: Word, hasKey: bool)

  /** A validator snapshot; `committed` is the outcome of recomputing its commitment. */
  datatype Snapshot = Snapshot(
    startSlot: nat, endSlot: nat, root: Hash, members: seq<Member>, committed: bool)

  function Order(s: Snapshot): seq<ValidatorId> {
    seq(|s.members|, i requires 0 <= i < |s.members| => s.members[i].id)
  }

  function Keys(s: Snapshot): set<ValidatorId> {
    set m | m in s.members && m.hasKey :: m.id
  }

  /** The stake table; a later entry for an identifier replaces an earlier one. */
  function StakeMap(members: seq<Member>): map<ValidatorId, Word> {
    if members == [] then map[]
    else StakeMap(members[..|members| - 1])[members[|members| - 1].id := members[|members| - 1].stake]
  }

  predicate Covers(s: Snapshot, slot: nat) {
    s.startSlot <= slot <= s.endSlot
  }

  /** The certificate verifies under the validators of one snapshot. */
  ghost predicate VerifiesForSnapshot(c: Certificate, s: Snapshot, quorum: Quorum, signatures: Signatures) {
    && s.committed
    && ValidCertificate(c)
    && Covers(s, c.slot)
    && s.members != [] && |Keys(s)| == |s.members|
    && c.scheme != ""
    && VerifiesWithStake(c, Order(s), Keys(s), StakeMap(s.members), quorum, signatures)
  }

  // ----- Choosing the snapshot of a slot -----

  function Covering(slot: nat, snapshots: seq<Snapshot>): seq<Snapshot> {
    if snapshots == [] then []
    else
      var last := snapshots[|snapshots| - 1];
      Covering(slot, snapshots[..|snapshots| - 1]) + if Covers(last, slot) then [last] else []
  }

  predicate OneRoot(snapshots: seq<Snapshot>) {
    forall i, j :: 0 <= i < |snapshots| && 0 <= j < |snapshots| ==> snapshots[i].root == snapshots[j].root
  }

  /** The current snapshot if it covers the slot; otherwise the covering one, when all that cover it agree. */
  function SnapshotFor(slot: nat, current: Snapshot, snapshots: seq<Snapshot>): Option<Snapshot> {
    var covering := Covering(slot, snapshots);
    if Covers(current, slot) then Some(current)
    else if covering == [] || !OneRoot(covering) then None
    else Some(covering[|covering| - 1])
  }

  /** The search remembers only the last match, yet finds every disagreement. */
  method FindSnapshot(slot: nat, current: Snapshot, snapshots: seq<Snapshot>) returns (r: Option<Snapshot>)
    ensures r == SnapshotFor(slot, current, snapshots)
  {
    hide Covering, OneRoot, Covers;
    if Covers(current, slot) {
      return Some(current);
    }
    NoneCovering(slot, snapshots);
    var matched: Option<Snapshot> := None;
    for i := 0 to |snapshots|
      invariant matched.Some? <==> Covering(slot, snapshots[..i]) != []
      invariant matched.Some? ==>
                  var c := Covering(slot, snapshots[..i]); matched.value == c[|c| - 1]
      invariant OneRoot(Covering(slot, snapshots[..i]))
    {
      var snapshot := snapshots[i];
      CoveringStep(slot, snapshots, i);
      ghost var c := Covering(slot, snapshots[..i]);
      if !Covers(snapshot, slot) {
        continue;
      }
      OneMoreRoot(c, snapshot);
      if matched.Some? && matched.value.root != snapshot.root {
        DisagreementRemains(slot, snapshots, i + 1);
        return None;
      }
      matched := Some(snapshot);
    }
    assert snapshots[..|snapshots|] == snapshots;
    return matched;
  }

  lemma NoneCovering(slot: nat, snapshots: seq<Snapshot>)
    ensures Covering(slot, snapshots[..0]) == [] && OneRoot([])
  {
  }

  lemma CoveringStep(slot: nat, snapshots: seq<Snapshot>, i: nat)
    requires i < |snapshots|
    ensures Covering(slot, snapshots[..i + 1]) ==
            Covering(slot, snapshots[..i]) + if Covers(snapshots[i], slot) then [snapshots[i]] else []
    ensures !Covers(snapshots[i], slot) ==> Covering(slot, snapshots[..i + 1]) == Covering(slot, snapshots[..i])
  {
    assert snapshots[..i + 1][..i] == snapshots[..i];
  }

  /** In a list of one root, the last tells whether one more snapshot agrees. */
  lemma OneMoreRoot(c: seq<Snapshot>, s: Snapshot)
    requires OneRoot(c)
    ensures OneRoot(c + [s]) <==> (c != [] ==> c[|c| - 1].root == s.root)
  {
    if c != [] {
      assert (c + [s])[|c| - 1] == c[|c| - 1] && (c + [s])[|c|] == s;
    }
  }

  lemma {:induction false} DisagreementRemains(slot: nat, snapshots: seq<Snapshot>, n: nat)
    requires n <= |snapshots| && !OneRoot(Covering(slot, snapshots[..n]))
    ensures !OneRoot(Covering(slot, snapshots))
    decreases |snapshots|
  {
    if n == |snapshots| {
      assert snapshots[..n] == snapshots;
    } else {
      var rest := snapshots[..|snapshots| - 1];
      assert rest[..n] == snapshots[..n];
      DisagreementRemains(slot, rest, n);
      var c, d := Covering(slot, rest), Covering(slot, snapshots);
      var i, j :| 0 <= i < |c| && 0 <= j < |c| && c[i].root != c[j].root;
      assert d[i] == c[i] && d[j] == c[j];
    }
  }

  lemma {:induction false} CoveringIs(slot: nat, snapshots: seq<Snapshot>, s: Snapshot)
    ensures s in Covering(slot, snapshots) <==> s in snapshots && s.startSlot <= slot <= s.endSlot
  {
    if snapshots != [] {
      CoveringIs(slot, snapshots[..|snapshots| - 1], s);
      assert snapshots == snapshots[..|snapshots| - 1] + [snapshots[|snapshots| - 1]];
    }
  }

  /** The snapshot of a slot covers it, first and last slot included, and is the current one if that does; otherwise it has
      the one root of all that cover it. There is none exactly when none covers the slot or two that do disagree. */
  lemma SnapshotIs(slot: nat, current: Snapshot, snapshots: seq<Snapshot>)
    ensures var r := SnapshotFor(slot, current, snapshots);
            && (current.startSlot <= slot <= current.endSlot ==> r == Some(current))
            && (r.Some? ==> r.value.startSlot <= slot <= r.value.endSlot && (r.value == current || r.value in snapshots))
            && (r.Some? && r.value != current ==>
                  forall s :: s in snapshots && s.startSlot <= slot <= s.endSlot ==> s.root == r.value.root)
            && (r.None? ==>
                  || (forall s :: s in snapshots ==> !(s.startSlot <= slot <= s.endSlot))
                  || exists s, t :: s in snapshots && t in snapshots && s.root != t.root
                                    && s.startSlot <= slot <= s.endSlot && t.startSlot <= slot <= t.endSlot)
  {
    var c := Covering(slot, snapshots);
    forall s ensures s in c <==> s in snapshots && s.startSlot <= slot <= s.endSlot {
      CoveringIs(slot, snapshots, s);
    }
    if c != [] {
      assert c[|c| - 1] in c;
      if !OneRoot(c) {
        var i, j :| 0 <= i < |c| && 0 <= j < |c| && c[i].root != c[j].root;
        assert c[i] in c && c[j] in c;
      }
    }
  }

  // ----- Accepting a proposal -----

  datatype Proposal = Proposal(
    slot: nat, parentSlot: nat, height: nat, parentHash: Hash, timeout: Option<Certificate>)

  ghost predicate ValidTimeout(p: Proposal) {
    if p.timeout.None? then !(p.slot > 0 && p.parentSlot < p.slot - 1)
    else
      && !(p.slot > 0 && p.parentSlot == p.slot - 1)
      && ValidCertificate(p.timeout.value)
      && p.slot != 0 && p.timeout.value.voteType == Skip && p.timeout.value.slot == p.slot - 1
      && p.timeout.value.height == p.height && p.timeout.value.hash == p.parentHash
  }

  ghost predicate TimeoutProven(
    timeout: Option<Certificate>, current: Snapshot, snapshots: seq<Snapshot>, signatures: Signatures)
  {
    timeout.Some? ==>
      && SnapshotFor(timeout.value.slot, current, snapshots).Some?
      && VerifiesForSnapshot(
           timeout.value, SnapshotFor(timeout.value.slot, current, snapshots).value, STRICT_TWO_THIRDS, signatures)
  }

  /** The slot checks a verifier makes before it executes a proposal. */
  ghost predicate Accepted(p: Proposal, current: Snapshot, snapshots: seq<Snapshot>, signatures: Signatures) {
    && !(p.parentSlot != 0 && p.parentSlot >= p.slot)
    && ValidTimeout(p)
    && TimeoutProven(p.timeout, current, snapshots, signatures)
  }

  /** A proposal carries a timeout certificate exactly when its parent is not in the slot before; the certificate is
      a Skip for that slot, for the height and parent of the proposal, and holds for its own snapshot. */
  lemma TimeoutExactlyWhenSkipping(p: Proposal, current: Snapshot, snapshots: seq<Snapshot>, signatures: Signatures)
    requires Accepted(p, current, snapshots, signatures) && p.slot > 0
    ensures p.timeout.Some? <==> p.parentSlot != p.slot - 1
    ensures p.timeout.Some? ==>
              && p.parentSlot < p.slot - 1
              && p.timeout.value.slot == p.slot - 1 && p.timeout.value.voteType == Skip
              && p.timeout.value.height == p.height && p.timeout.value.hash == p.parentHash
              && SnapshotFor(p.slot - 1, current, snapshots).Some?
              && VerifiesForSnapshot(
                   p.timeout.value, SnapshotFor(p.slot - 1, current, snapshots).value, STRICT_TWO_THIRDS, signatures)
  {
    hide SnapshotFor, VerifiesForSnapshot, ValidCertificate;
  }

  /** The two votes a signer of both ballots can be confronted with. */
  function AsVote(b: Ballot, stake: nat, createdAt: int): Vote {
    Vote(b.voteType, b.slot, b.height, b.hash, b.voter, stake, createdAt)
  }

  lemma StrictThirdsOverlap(total: Word, a: nat, b: nat)
    requires total > 0 && Reaches(STRICT_TWO_THIRDS, a, total) && Reaches(STRICT_TWO_THIRDS, b, total)
    ensures a + b > total + (total - 1) / 3
  {
  }

  /** The validators behind both certificates hold more than a third, and each signed both ballots. */
  ghost predicate DoubleSigned(confirm: Certificate, skip: Certificate, snapshot: Snapshot, signatures: Signatures) {
    var stake := StakeMap(snapshot.members);
    var both := Elements(confirm.voters) * Elements(skip.voters);
    && Elements(Order(snapshot)) <= stake.Keys && both <= Elements(Order(snapshot))
    && Sum(stake, both) > (Sum(stake, Elements(Order(snapshot))) - 1) / 3
    && forall v :: v in both ==>
         && BallotOf(confirm, v) in signatures.signed
         && BallotOf(skip, v) in signatures.signed
         && ValidDoubleVote(AsVote(BallotOf(confirm, v), 1, 1), AsVote(BallotOf(skip, v), 1, 1))
  }

  lemma QuorumsOverlap(order: seq<ValidatorId>, stake: map<ValidatorId, Word>, a: set<ValidatorId>, b: set<ValidatorId>)
    requires Elements(order) <= stake.Keys && a <= Elements(order) && b <= Elements(order)
    requires 0 < Sum(stake, Elements(order)) <= MAX
    requires Reaches(STRICT_TWO_THIRDS, Sum(stake, a), Sum(stake, Elements(order)))
    requires Reaches(STRICT_TWO_THIRDS, Sum(stake, b), Sum(stake, Elements(order)))
    ensures Sum(stake, a * b) > (Sum(stake, Elements(order)) - 1) / 3
  {
    StrictThirdsOverlap(Sum(stake, Elements(order)), Sum(stake, a), Sum(stake, b));
    SumOverlap(stake, a, b);
    SumMonotone(stake, a + b, Elements(order));
  }

  lemma BothBallotsConvict(confirm: Certificate, skip: Certificate, v: ValidatorId)
    requires ValidCertificate(confirm) && ValidCertificate(skip)
    requires confirm.voteType == Confirm && skip.voteType == Skip && confirm.slot == skip.slot
    requires v in confirm.voters
    ensures ValidDoubleVote(AsVote(BallotOf(confirm, v), 1, 1), AsVote(BallotOf(skip, v), 1, 1))
  {
    var i :| 0 <= i < |confirm.voters| && confirm.voters[i] == v;
    assert ValidId(confirm.voters[i]);
  }

  lemma CertificatesDoubleSigned(confirm: Certificate, skip: Certificate, snapshot: Snapshot, signatures: Signatures)
    requires Unforgeable(signatures)
    requires VerifiesForSnapshot(confirm, snapshot, STRICT_TWO_THIRDS, signatures)
    requires VerifiesForSnapshot(skip, snapshot, STRICT_TWO_THIRDS, signatures)
    requires confirm.voteType == Confirm && skip.voteType == Skip && confirm.slot == skip.slot
    ensures DoubleSigned(confirm, skip, snapshot, signatures)
  {
    var order, stake := Order(snapshot), StakeMap(snapshot.members);
    StakeTruth(confirm, order, Keys(snapshot), stake, STRICT_TWO_THIRDS, signatures);
    StakeTruth(skip, order, Keys(snapshot), stake, STRICT_TWO_THIRDS, signatures);
    QuorumsOverlap(order, stake, Elements(confirm.voters), Elements(skip.voters));
    forall v | v in Elements(confirm.voters) * Elements(skip.voters)
      ensures ValidDoubleVote(AsVote(BallotOf(confirm, v), 1, 1), AsVote(BallotOf(skip, v), 1, 1))
    {
      BothBallotsConvict(confirm, skip, v);
    }
  }

  /** A confirmed slot cannot be skipped by the next slot. Under one snapshot, a verified strict two-thirds
      Confirm certificate for slot `s` and an accepted proposal of slot `s + 1` whose parent is not at `s`
      together mean that validators holding more than `(total - 1) / 3` signed both a Confirm and a Skip
      ballot at `s`: double votes, every one. */
  lemma ConfirmedSlotNotSkipped(
    s: nat, confirm: Certificate, snapshot: Snapshot,
    p: Proposal, current: Snapshot, snapshots: seq<Snapshot>, signatures: Signatures)
    requires Unforgeable(signatures)
    requires confirm.voteType == Confirm && confirm.slot == s
    requires VerifiesForSnapshot(confirm, snapshot, STRICT_TWO_THIRDS, signatures)
    requires p.slot == s + 1 && p.parentSlot != s && Accepted(p, current, snapshots, signatures)
    requires SnapshotFor(s, current, snapshots) == Some(snapshot)
    ensures p.timeout.Some?
    ensures DoubleSigned(confirm, p.timeout.value, snapshot, signatures)
  {
    TimeoutExactlyWhenSkipping(p, current, snapshots, signatures);
    CertificatesDoubleSigned(confirm, p.timeout.value, snapshot, signatures);
  }
}
