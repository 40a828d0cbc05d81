/** Double-vote evidence against the collector's own refusals, and safety while the double voters are few. */
module DoubleVotes {

  import opened Bytes
  import opened Sums
  import opened Uint64
  import opened Votes
  import opened Wrappers
  import opened Collector
  import opened VoteHistory
  import opened AccountableSafety

  /** Accepted votes of one voter never share slot and phase. */
  lemma {:induction false} OneDecisionEach(stake: map<ValidatorId, Word>, inputs: seq<Input>, i: nat, j: nat)
    requires i < j < |Accepted(stake, inputs)|
    ensures !SameDecision(Accepted(stake, inputs)[i].vote, Accepted(stake, inputs)[j].vote)
  {
    hide SameDecision, Repeats, Misplaced, ValidVote;
    var before := Accepted(stake, inputs[..|inputs| - 1]);
    if j < |before| {
      OneDecisionEach(stake, inputs[..|inputs| - 1], i, j);
    }
  }

  lemma {:induction false} AcceptedAreValid(stake: map<ValidatorId, Word>, inputs: seq<Input>, i: nat)
    requires i < |Accepted(stake, inputs)|
    ensures ValidVote(Accepted(stake, inputs)[i].vote)
  {
    hide ValidVote, Repeats, Misplaced, Decided;
    var before := Accepted(stake, inputs[..|inputs| - 1]);
    if i < |before| {
      AcceptedAreValid(stake, inputs[..|inputs| - 1], i);
    }
  }

  /** What evidence convicts of: two valid votes of one voter, for one slot and phase, with different choices. */
  lemma EvidenceIsSecondDecision(a: Vote, b: Vote)
    ensures ValidDoubleVote(a, b) <==> ValidVote(a) && ValidVote(b) && SameDecision(a, b) && !SameChoice(a, b)
  {
  }

  /** No two votes that one collector accepts, in any run, are evidence against their voter. */
  lemma AcceptedNeverConvict(stake: map<ValidatorId, Word>, inputs: seq<Input>, i: nat, j: nat)
    requires i < |Accepted(stake, inputs)| && j < |Accepted(stake, inputs)|
    ensures !ValidDoubleVote(Accepted(stake, inputs)[i].vote, Accepted(stake, inputs)[j].vote)
  {
    hide Accepted, ValidVote;
    var accepted := Accepted(stake, inputs);
    EvidenceIsSecondDecision(accepted[i].vote, accepted[j].vote);
    if i < j {
      OneDecisionEach(stake, inputs, i, j);
    } else if j < i {
      OneDecisionEach(stake, inputs, j, i);
    }
  }

  /** After any run, a valid vote of a registered stake is refused as conflicting exactly when it is evidence together
      with an accepted one. */
  lemma ConflictIsEvidence(s: State, inputs: seq<Input>, v: Vote)
    requires Sound(s) && s.buckets == map[] && s.choices == map[]
    requires ValidVote(v) && v.voter in s.stake && s.stake[v.voter] == v.stake
    ensures RefusalOf(After(s, inputs), v) == Some(ConflictingVote) <==>
            exists n :: 0 <= n < |Accepted(s.stake, inputs)| && ValidDoubleVote(Accepted(s.stake, inputs)[n].vote, v)
  {
    hide Sound, After, Accepted, Agrees, RefusalOf, ValidVote, ValidDoubleVote, SameDecision, SameChoice, Misplaced;
    var accepted := Accepted(s.stake, inputs);
    RunAgrees(s, inputs);
    VerdictIs(s, After(s, inputs), accepted, v);
    forall n | 0 <= n < |accepted|
      ensures ValidDoubleVote(accepted[n].vote, v) <==> SameDecision(accepted[n].vote, v) && !SameChoice(accepted[n].vote, v)
    {
      AcceptedAreValid(s.stake, inputs, n);
      EvidenceIsSecondDecision(accepted[n].vote, v);
    }
    if m, n :| 0 <= m < |accepted| && 0 <= n < |accepted| && m != n &&
               SameDecision(accepted[m].vote, v) && SameDecision(accepted[n].vote, v) {
      OnlyOneDecided(s.stake, inputs, v, m, n);
    }
  }

  lemma OnlyOneDecided(stake: map<ValidatorId, Word>, inputs: seq<Input>, v: Vote, m: nat, n: nat)
    requires m < |Accepted(stake, inputs)| && n < |Accepted(stake, inputs)|
    requires SameDecision(Accepted(stake, inputs)[m].vote, v) && SameDecision(Accepted(stake, inputs)[n].vote, v)
    ensures m == n
  {
    hide Accepted;
    if m < n {
      OneDecisionEach(stake, inputs, m, n);
    } else if n < m {
      OneDecisionEach(stake, inputs, n, m);
    }
  }

  /** Two votes are evidence exactly when a fresh collector that accepted the first refuses the second as conflicting. */
  lemma EvidenceExactlyWhen(s: State, first: Input, second: Vote)
    requires Sound(s) && s.buckets == map[] && s.choices == map[] && RefusalOf(s, first.vote).None?
    requires ValidVote(second) && second.voter in s.stake && s.stake[second.voter] == second.stake
    ensures RefusalOf(Next(s, first), second) == Some(ConflictingVote) <==> ValidDoubleVote(first.vote, second)
  {
    hide Sound, RefusalOf, Next, After, Accepted, Agrees, ValidVote, ValidDoubleVote;
    FirstAccepted(s, first);
    ConflictIsEvidence(s, [first], second);
    assert Accepted(s.stake, [first])[0] == first;
  }

  lemma FirstAccepted(s: State, first: Input)
    requires Sound(s) && s.buckets == map[] && s.choices == map[] && RefusalOf(s, first.vote).None?
    ensures Accepted(s.stake, [first]) == [first] && After(s, [first]) == Next(s, first)
  {
    hide Sound, RefusalOf, Next, Verdict, Agrees;
    EmptyAgrees(s);
    VerdictIs(s, s, [], first.vote);
    assert [first][..0] == [];
    assert Accepted(s.stake, [first][..0]) == [] && After(s, [first][..0]) == s;
  }

  // ----- Honest validators -----

  /** Everywhere in the inputs, the voter decides each slot and phase once. */
  ghost predicate Honest(inputs: seq<Input>, v: ValidatorId) {
    forall m, n :: 0 <= m < |inputs| && 0 <= n < |inputs| && inputs[m].vote.voter == v ==>
      SameDecision(inputs[m].vote, inputs[n].vote) ==> SameChoice(inputs[m].vote, inputs[n].vote)
  }

  /** An honest validator cannot be convicted, whatever nodes its votes reach. */
  lemma HonestNotConvicted(left: seq<Input>, right: seq<Input>, v: ValidatorId)
    requires Honest(left + right, v)
    ensures !Convicted(left, right, v)
  {
    hide ValidVote, SameDecision, SameChoice, ValidDoubleVote;
    var all := left + right;
    forall m, n | 0 <= m < |left| && 0 <= n < |right| && left[m].vote.voter == v
      ensures !ValidDoubleVote(left[m].vote, right[n].vote)
    {
      assert all[m] == left[m] && all[|left| + n] == right[n];
      EvidenceIsSecondDecision(left[m].vote, right[n].vote);
    }
  }

  ghost function Dishonest(stake: map<ValidatorId, Word>, inputs: seq<Input>): set<ValidatorId> {
    set v | v in stake && !Honest(inputs, v)
  }

  /** Safety. For every table and quorums the constructor accepts and any two runs: while the validators that decided
      some slot and phase twice hold at most the Byzantine bound, no Confirm conflicts with a Skip certificate of its
      slot, and with equal quorums or overlapping thresholds no two certificates conflict at all. */
  lemma FewDoubleVotersNoConflict(
    stake: map<ValidatorId, Word>, confirm: Quorum, timeout: Quorum,
    aggregate: seq<Bytes> -> Option<Bytes>,
    left: seq<Input>, leftReplies: seq<Reply>, m: nat,
    right: seq<Input>, rightReplies: seq<Reply>, n: nat)
    requires Fresh(stake, confirm, timeout).Some?
    requires var s := Fresh(stake, confirm, timeout).value;
             IsRun(s, left, aggregate, leftReplies) && IsRun(s, right, aggregate, rightReplies)
    requires m < |leftReplies| && leftReplies[m].Certified?
    requires n < |rightReplies| && rightReplies[n].Certified?
    requires var s := Fresh(stake, confirm, timeout).value;
             && s.total > 0
             && (|| confirm == timeout || ConfirmAgainstSkip(leftReplies[m].certificate, rightReplies[n].certificate)
                 || Overlap(s, leftReplies[m].certificate.voteType, rightReplies[n].certificate.voteType))
    requires Sum(stake, Dishonest(stake, left + right)) <= MaximumByzantine(Total(stake))
    ensures !Conflict(leftReplies[m].certificate, rightReplies[n].certificate)
  {
    hide IsRun, Convicted, Overlap, Thresholds, Honest, Sum;
    if Conflict(leftReplies[m].certificate, rightReplies[n].certificate) {
      if confirm == timeout || ConfirmAgainstSkip(leftReplies[m].certificate, rightReplies[n].certificate) {
        AcceptedOverlap(stake, confirm, timeout, leftReplies[m].certificate.voteType, rightReplies[n].certificate.voteType);
      }
      OverlapConvicts(stake, confirm, timeout, aggregate, left, leftReplies, m, right, rightReplies, n);
      var common := Elements(leftReplies[m].certificate.voters) * Elements(rightReplies[n].certificate.voters);
      forall v | v in common ensures v in Dishonest(stake, left + right) {
        if Honest(left + right, v) {
          HonestNotConvicted(left, right, v);
        }
      }
      SumMonotone(stake, common, Dishonest(stake, left + right));
    }
  }
}
