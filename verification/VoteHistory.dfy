/** The collector told from the votes alone: what a run accepts, refuses and certifies is a function of the accepted
    votes so far, without buckets or recorded choices. */
module VoteHistory {

  import opened Bytes
  import opened Sums
  import opened Uint64
  import opened Votes
  import opened Wrappers
  import opened Bitmap
  import opened Collector

  // ----- The reference -----

  /** One voter's votes for one slot: Prepare is a phase of its own, all others share one. */
  predicate SameDecision(a: Vote, b: Vote) {
    a.voter == b.voter && a.slot == b.slot && (a.voteType == Prepare <==> b.voteType == Prepare)
  }

  predicate SameChoice(a: Vote, b: Vote) {
    a.voteType == b.voteType && a.height == b.height && a.hash == b.hash
  }

  predicate SameBallot(a: Vote, b: Vote) {
    a.slot == b.slot && a.voteType == b.voteType && a.hash == b.hash
  }

  /** The voter has decided this slot and phase before. */
  ghost predicate Decided(accepted: seq<Input>, v: Vote) {
    exists n :: 0 <= n < |accepted| && SameDecision(accepted[n].vote, v)
  }

  ghost predicate Repeats(accepted: seq<Input>, v: Vote) {
    exists n :: 0 <= n < |accepted| && SameDecision(accepted[n].vote, v) && SameChoice(accepted[n].vote, v)
  }

  /** Somebody voted for the same block at another height. */
  ghost predicate Misplaced(accepted: seq<Input>, v: Vote) {
    exists n :: 0 <= n < |accepted| && SameBallot(accepted[n].vote, v) && accepted[n].vote.height != v.height
  }

  ghost function Verdict(stake: map<ValidatorId, Word>, accepted: seq<Input>, v: Vote): Option<Refusal> {
    if !ValidVote(v) then Some(InvalidVote)
    else if v.voter !in stake then Some(UnknownValidator)
    else if stake[v.voter] != v.stake then Some(StakeMismatch)
    else if Repeats(accepted, v) then Some(DuplicateVote)
    else if Decided(accepted, v) then Some(ConflictingVote)
    else if Misplaced(accepted, v) then Some(HeightMismatch)
    else None
  }

  /** The inputs of a run that are accepted, in order. */
  ghost function Accepted(stake: map<ValidatorId, Word>, inputs: seq<Input>): seq<Input> {
    if inputs == [] then []
    else
      var before, last := Accepted(stake, inputs[..|inputs| - 1]), inputs[|inputs| - 1];
      if Verdict(stake, before, last.vote).None? then before + [last] else before
  }

  /** Who voted for the block `v` votes for. */
  ghost function Backers(accepted: seq<Input>, v: Vote): set<ValidatorId> {
    set n | 0 <= n < |accepted| && SameBallot(accepted[n].vote, v) :: accepted[n].vote.voter
  }

  /** The latest time on a vote for that block. */
  function Latest(accepted: seq<Input>, v: Vote): int {
    if accepted == [] then 0
    else
      var before, last := Latest(accepted[..|accepted| - 1], v), accepted[|accepted| - 1].vote;
      if SameBallot(last, v) && last.createdAt > before then last.createdAt else before
  }

  /** The signatures that came with the votes for that block. */
  function SignaturesFor(accepted: seq<Input>, v: Vote): map<ValidatorId, Bytes> {
    if accepted == [] then map[]
    else
      var before, last := SignaturesFor(accepted[..|accepted| - 1], v), accepted[|accepted| - 1];
      if SameBallot(last.vote, v) && last.signature != [] then before[last.vote.voter := last.signature] else before
  }

  // ----- A collector that has seen the history -----

  ghost predicate ChoicesAgree(e: State, accepted: seq<Input>) {
    && (forall n :: 0 <= n < |accepted| ==>
          && ChoiceKeyOf(accepted[n].vote) in e.choices
          && e.choices[ChoiceKeyOf(accepted[n].vote)] == ChoiceOf(accepted[n].vote))
    && (forall k :: k in e.choices ==> exists n :: 0 <= n < |accepted| && ChoiceKeyOf(accepted[n].vote) == k)
  }

  ghost predicate BucketAgrees(e: State, accepted: seq<Input>, v: Vote) {
    var b := BucketAt(e, KeyOf(v));
    && b.voters == Backers(accepted, v)
    && b.createdAt == Latest(accepted, v)
    && b.signatures == SignaturesFor(accepted, v)
    && (b.height == 0 <==> b.voters == {})
    && forall n :: 0 <= n < |accepted| && SameBallot(accepted[n].vote, v) ==> accepted[n].vote.height == b.height
  }

  ghost predicate Agrees(s: State, e: State, accepted: seq<Input>) {
    && e == s.(buckets := e.buckets, choices := e.choices) && Sound(e)
    && (forall n :: 0 <= n < |accepted| ==> ValidVote(accepted[n].vote))
    && ChoicesAgree(e, accepted)
    && forall v: Vote :: BucketAgrees(e, accepted, v)
  }

  lemma DecisionIsKey(a: Vote, b: Vote)
    ensures SameDecision(a, b) <==> ChoiceKeyOf(a) == ChoiceKeyOf(b)
    ensures SameChoice(a, b) <==> ChoiceOf(a) == ChoiceOf(b)
    ensures SameBallot(a, b) <==> KeyOf(a) == KeyOf(b)
  {
  }

  lemma ChoiceVerdict(e: State, accepted: seq<Input>, v: Vote)
    requires ChoicesAgree(e, accepted)
    ensures ChoiceKeyOf(v) in e.choices <==> Decided(accepted, v)
    ensures ChoiceKeyOf(v) in e.choices ==> (e.choices[ChoiceKeyOf(v)] == ChoiceOf(v) <==> Repeats(accepted, v))
    ensures Repeats(accepted, v) ==> Decided(accepted, v)
  {
    hide SameDecision, SameChoice, ChoiceKeyOf, ChoiceOf;
    forall n | 0 <= n < |accepted|
      ensures SameDecision(accepted[n].vote, v) <==> ChoiceKeyOf(accepted[n].vote) == ChoiceKeyOf(v)
      ensures SameChoice(accepted[n].vote, v) <==> ChoiceOf(accepted[n].vote) == ChoiceOf(v)
    {
      DecisionIsKey(accepted[n].vote, v);
    }
  }

  lemma HeightVerdict(e: State, accepted: seq<Input>, v: Vote)
    requires BucketAgrees(e, accepted, v)
    ensures var b := BucketAt(e, KeyOf(v)); b.height != 0 && b.height != v.height <==> Misplaced(accepted, v)
  {
    hide SameBallot, Latest, SignaturesFor, BucketAt;
    var b := BucketAt(e, KeyOf(v));
    if b.height != 0 && b.height != v.height {
      var x :| x in Backers(accepted, v);
      var n :| 0 <= n < |accepted| && SameBallot(accepted[n].vote, v) && accepted[n].vote.voter == x;
      assert accepted[n].vote.height != v.height;
    }
    if Misplaced(accepted, v) {
      var n :| 0 <= n < |accepted| && SameBallot(accepted[n].vote, v) && accepted[n].vote.height != v.height;
      assert accepted[n].vote.voter in Backers(accepted, v);
    }
  }

  /** The collector's checks and the history give the same verdict. */
  lemma VerdictIs(s: State, e: State, accepted: seq<Input>, v: Vote)
    requires Agrees(s, e, accepted)
    ensures RefusalOf(e, v) == Verdict(s.stake, accepted, v)
  {
    hide Sound, ValidVote, ChoicesAgree, BucketAgrees, Decided, Repeats, Misplaced, BucketAt;
    ChoiceVerdict(e, accepted, v);
    assert BucketAgrees(e, accepted, v);
    HeightVerdict(e, accepted, v);
  }

  lemma ChoicesGrow(e: State, accepted: seq<Input>, i: Input)
    requires ChoicesAgree(e, accepted) && RefusalOf(e, i.vote).None?
    ensures ChoicesAgree(Next(e, i), accepted + [i])
  {
    hide ValidVote, Extended;
    var t, more := Next(e, i), accepted + [i];
    assert ChoiceKeyOf(i.vote) !in e.choices;
    forall n | 0 <= n < |more|
      ensures ChoiceKeyOf(more[n].vote) in t.choices && t.choices[ChoiceKeyOf(more[n].vote)] == ChoiceOf(more[n].vote)
    {
      assert n < |accepted| ==> more[n] == accepted[n];
    }
    forall k | k in t.choices ensures exists n :: 0 <= n < |more| && ChoiceKeyOf(more[n].vote) == k {
      if k == ChoiceKeyOf(i.vote) {
        assert more[|accepted|] == i;
      } else {
        var n :| 0 <= n < |accepted| && ChoiceKeyOf(accepted[n].vote) == k;
        assert more[n] == accepted[n];
      }
    }
  }

  lemma BackersGrow(accepted: seq<Input>, i: Input, v: Vote)
    ensures Backers(accepted + [i], v) == Backers(accepted, v) + if SameBallot(i.vote, v) then {i.vote.voter} else {}
  {
    hide SameBallot;
    var more := accepted + [i];
    forall x ensures x in Backers(more, v) <==> x in Backers(accepted, v) || (SameBallot(i.vote, v) && x == i.vote.voter) {
      if x in Backers(accepted, v) {
        var n :| 0 <= n < |accepted| && SameBallot(accepted[n].vote, v) && accepted[n].vote.voter == x;
        assert more[n] == accepted[n];
      }
      if SameBallot(i.vote, v) && x == i.vote.voter {
        assert more[|accepted|] == i;
      }
    }
  }

  lemma HistoryGrows(accepted: seq<Input>, i: Input, v: Vote)
    ensures Latest(accepted + [i], v) ==
            if SameBallot(i.vote, v) && i.vote.createdAt > Latest(accepted, v) then i.vote.createdAt else Latest(accepted, v)
    ensures SignaturesFor(accepted + [i], v) ==
            if SameBallot(i.vote, v) && i.signature != [] then SignaturesFor(accepted, v)[i.vote.voter := i.signature]
            else SignaturesFor(accepted, v)
  {
    hide SameBallot;
    assert (accepted + [i])[..|accepted + [i]| - 1] == accepted;
  }

  lemma BucketGrows(e: State, accepted: seq<Input>, i: Input, v: Vote)
    requires Sound(e) && BucketAgrees(e, accepted, v) && RefusalOf(e, i.vote).None?
    ensures BucketAgrees(Next(e, i), accepted + [i], v)
  {
    hide Sound, Backers, Latest, SignaturesFor, ValidVote;
    BackersGrow(accepted, i, v);
    HistoryGrows(accepted, i, v);
    DecisionIsKey(i.vote, v);
    var more := accepted + [i];
    assert forall n :: 0 <= n < |accepted| ==> more[n] == accepted[n];
    assert i.vote.height != 0 by {
      AcceptedIsValid(e, i);
    }
    if KeyOf(i.vote) == KeyOf(v) {
      OneHeight(e, accepted, i, v);
    }
  }

  lemma AcceptedIsValid(e: State, i: Input)
    requires RefusalOf(e, i.vote).None?
    ensures ValidVote(i.vote) && i.vote.height != 0
  {
  }

  lemma OneHeight(e: State, accepted: seq<Input>, i: Input, v: Vote)
    requires BucketAgrees(e, accepted, v) && RefusalOf(e, i.vote).None? && KeyOf(i.vote) == KeyOf(v)
    ensures forall n :: 0 <= n < |accepted| && SameBallot(accepted[n].vote, v) ==> accepted[n].vote.height == i.vote.height
  {
    hide ValidVote, Latest, SignaturesFor;
    forall n | 0 <= n < |accepted| && SameBallot(accepted[n].vote, v) ensures accepted[n].vote.height == i.vote.height {
      assert accepted[n].vote.voter in Backers(accepted, v);
    }
  }

  lemma AgreesNext(s: State, e: State, accepted: seq<Input>, i: Input)
    requires Agrees(s, e, accepted)
    ensures RefusalOf(e, i.vote) == Verdict(s.stake, accepted, i.vote)
    ensures Verdict(s.stake, accepted, i.vote).None? ==> Agrees(s, Next(e, i), accepted + [i])
    ensures Verdict(s.stake, accepted, i.vote).Some? ==> Next(e, i) == e
  {
    hide Sound, ChoicesAgree, BucketAgrees, Verdict, RefusalOf, ValidVote;
    VerdictIs(s, e, accepted, i.vote);
    if RefusalOf(e, i.vote).None? {
      NextSound(e, i);
      ChoicesGrow(e, accepted, i);
      AcceptedIsValid(e, i);
      forall v: Vote ensures BucketAgrees(Next(e, i), accepted + [i], v) {
        BucketGrows(e, accepted, i, v);
      }
    }
  }

  lemma EmptyAgrees(s: State)
    requires Sound(s) && s.buckets == map[] && s.choices == map[]
    ensures Agrees(s, s, [])
  {
    hide Sound;
  }

  /** After every run the collector holds exactly what the accepted votes say. */
  lemma {:induction false} RunAgrees(s: State, inputs: seq<Input>)
    requires Sound(s) && s.buckets == map[] && s.choices == map[]
    ensures Agrees(s, After(s, inputs), Accepted(s.stake, inputs))
  {
    hide Sound, Agrees, Verdict, RefusalOf, Next;
    if inputs == [] {
      EmptyAgrees(s);
    } else {
      var front := inputs[..|inputs| - 1];
      RunAgrees(s, front);
      AgreesNext(s, After(s, front), Accepted(s.stake, front), inputs[|inputs| - 1]);
    }
  }

  // ----- What a run answers -----

  /** The stake registered for the voters of `v`'s block. */
  ghost function BackingOf(stake: map<ValidatorId, Word>, accepted: seq<Input>, v: Vote): nat {
    if Backers(accepted, v) <= stake.Keys then Sum(stake, Backers(accepted, v)) else 0
  }

  /** The certificate the votes stand for, before any aggregation. */
  ghost predicate StandsFor(s: State, accepted: seq<Input>, v: Vote, c: Certificate) {
    && c.voteType == v.voteType && c.slot == v.slot && c.height == v.height && c.hash == v.hash
    && c.voters == Sorted(Backers(accepted, v))
    && c.confirmed == BackingOf(s.stake, accepted, v)
    && c.threshold == (if v.voteType == Skip then s.timeoutThreshold else s.confirmThreshold)
    && c.createdAt == Latest(accepted, v)
  }

  /** Every voter of the block signed, and an order of validators is given. */
  ghost predicate Aggregates(accepted: seq<Input>, i: Input) {
    i.order != [] && SignaturesFor(accepted, i.vote).Keys == Backers(accepted, i.vote)
  }

  /** The answer to input `i`, given the votes accepted `before` it. */
  ghost predicate AnswersHistory(
    s: State, before: seq<Input>, i: Input, aggregate: seq<Bytes> -> Option<Bytes>, r: Reply)
  {
    var verdict, after := Verdict(s.stake, before, i.vote), before + [i];
    var threshold := if i.vote.voteType == Skip then s.timeoutThreshold else s.confirmThreshold;
    var was, now := BackingOf(s.stake, before, i.vote), BackingOf(s.stake, after, i.vote);
    && (r.Refused? <==> verdict.Some?) && (r.Refused? ==> verdict == Some(r.reason))
    && (verdict.None? ==>
          && now == was + s.stake[i.vote.voter]
          && (r.Counted? <==> now < threshold || (threshold <= was && now < s.total))
          && (r.AggregateFailed? ==> Aggregates(after, i))
          && (r.Certified? ==> exists plain ::
                && StandsFor(s, after, i.vote, plain)
                && if Aggregates(after, i) then Attaches(plain, i.order, SignaturesFor(after, i.vote), aggregate, Some(r.certificate))
                   else r.certificate == plain.(scheme := "", aggregate := [], bitmap := [])))
  }

  lemma SignedByAll(e: State, key: VoteKey)
    requires Sound(e) && key in e.buckets
    ensures |e.buckets[key].signatures| == |e.buckets[key].voters| <==> e.buckets[key].signatures.Keys == e.buckets[key].voters
  {
    var b := e.buckets[key];
    assert BucketSound(e, key);
    if |b.signatures| == |b.voters| {
      SameSize(b.signatures.Keys, b.voters);
    }
  }

  lemma SameSize<T>(a: set<T>, b: set<T>)
    requires a <= b && |a| == |b|
    ensures a == b
  {
    if a != b {
      var x :| x in b && x !in a;
      SubsetSize(a, b - {x});
    }
  }

  lemma BackingIs(s: State, e: State, accepted: seq<Input>, v: Vote)
    requires Agrees(s, e, accepted)
    ensures BackingOf(s.stake, accepted, v) == BucketAt(e, KeyOf(v)).stake
    ensures Backers(accepted, v) == BucketAt(e, KeyOf(v)).voters
  {
    hide Latest, SignaturesFor, Backers, ValidTable, ChoicesAgree;
    assert BucketAgrees(e, accepted, v);
    if KeyOf(v) in e.buckets {
      assert BucketSound(e, KeyOf(v));
    }
  }

  lemma IssuedSays(s: State, e: State, accepted: seq<Input>, i: Input, aggregate: seq<Bytes> -> Option<Bytes>, r: Reply)
    requires Agrees(s, e, accepted) && RefusalOf(e, i.vote).None? && Agrees(s, Next(e, i), accepted + [i])
    requires Completes(e, i) && Issues(PlainCertificate(e, i), Next(e, i).buckets[KeyOf(i.vote)], i.order, aggregate, r)
    ensures var after, plain := accepted + [i], PlainCertificate(e, i);
            && StandsFor(s, after, i.vote, plain)
            && (r.Certified? || (r.AggregateFailed? && Aggregates(after, i)))
            && (r.Certified? ==>
                  if Aggregates(after, i) then Attaches(plain, i.order, SignaturesFor(after, i.vote), aggregate, Some(r.certificate))
                  else r.certificate == plain)
  {
    hide Sound, RefusalOf, Completes, Attaches, Backers, Latest, SignaturesFor, ChoicesAgree, Sorted;
    var t, after := Next(e, i), accepted + [i];
    NextBucket(e, i);
    BackingIs(s, t, after, i.vote);
    assert BucketAgrees(t, after, i.vote);
    SignedByAll(t, KeyOf(i.vote));
  }

  /** The answers of a run, told from the votes alone. A vote is counted without a certificate exactly when the
      registered stake behind its block is below the threshold after it, or was at the threshold before it and is not
      yet the whole; every other accepted vote brings a certificate of exactly the voters so far. */
  lemma AnsweredFromHistory(
    s: State, inputs: seq<Input>, aggregate: seq<Bytes> -> Option<Bytes>, replies: seq<Reply>, n: nat)
    requires Sound(s) && s.buckets == map[] && s.choices == map[]
    requires IsRun(s, inputs, aggregate, replies) && n < |replies|
    ensures AnswersHistory(s, Accepted(s.stake, inputs[..n]), inputs[n], aggregate, replies[n])
  {
    hide Sound, Agrees, RefusalOf, Next, Verdict, After, Accepted;
    RunAgrees(s, inputs[..n]);
    assert Answers(After(s, inputs[..n]), inputs[n], aggregate, replies[n]);
    AnswerSays(s, After(s, inputs[..n]), Accepted(s.stake, inputs[..n]), inputs[n], aggregate, replies[n]);
  }

  lemma AnswerSays(s: State, e: State, accepted: seq<Input>, i: Input, aggregate: seq<Bytes> -> Option<Bytes>, r: Reply)
    requires Agrees(s, e, accepted) && Answers(e, i, aggregate, r)
    ensures AnswersHistory(s, accepted, i, aggregate, r)
  {
    hide Sound, Agrees, RefusalOf, Verdict, Next, Issues, Attaches, Aggregates, StandsFor, BackingOf, PlainCertificate;
    AgreesNext(s, e, accepted, i);
    if RefusalOf(e, i.vote).None? {
      StakeSays(s, e, accepted, i);
      if Completes(e, i) {
        IssuedSays(s, e, accepted, i, aggregate, r);
        PlainHasNoAggregate(e, i);
      }
    }
  }

  lemma PlainHasNoAggregate(e: State, i: Input)
    requires RefusalOf(e, i.vote).None?
    ensures var c := PlainCertificate(e, i); c == c.(scheme := "", aggregate := [], bitmap := [])
  {
    hide RefusalOf;
  }

  lemma StakeSays(s: State, e: State, accepted: seq<Input>, i: Input)
    requires Agrees(s, e, accepted) && RefusalOf(e, i.vote).None? && Agrees(s, Next(e, i), accepted + [i])
    ensures i.vote.voter in s.stake
    ensures var was, now := BackingOf(s.stake, accepted, i.vote), BackingOf(s.stake, accepted + [i], i.vote);
            var threshold := if i.vote.voteType == Skip then s.timeoutThreshold else s.confirmThreshold;
            && now == was + s.stake[i.vote.voter]
            && (Completes(e, i) <==> !(now < threshold || (threshold <= was && now < s.total)))
  {
    hide RefusalOf, BackingOf, ChoicesAgree, BucketAgrees, Extended, Sum, ValidTable;
    RegisteredIfAccepted(e, i.vote);
    BackingIs(s, e, accepted, i.vote);
    BackingIs(s, Next(e, i), accepted + [i], i.vote);
    NextBucket(e, i);
  }

  // ----- How often a block is certified -----

  /** The answers that brought a certificate (or failed to aggregate one) for `v`'s block. */
  function TimesIssued(inputs: seq<Input>, replies: seq<Reply>, v: Vote): nat
    requires |inputs| == |replies|
  {
    if inputs == [] then 0
    else
      var n := |inputs| - 1;
      TimesIssued(inputs[..n], replies[..n], v) +
      if SameBallot(inputs[n].vote, v) && (replies[n].Certified? || replies[n].AggregateFailed?) then 1 else 0
  }

  /** The stake of the last voter for `v`'s block. */
  function LastStake(stake: map<ValidatorId, Word>, accepted: seq<Input>, v: Vote): nat {
    if accepted == [] then 0
    else
      var last := accepted[|accepted| - 1].vote;
      if SameBallot(last, v) && last.voter in stake then stake[last.voter] else LastStake(stake, accepted[..|accepted| - 1], v)
  }

  /** Once for crossing the threshold, and once more if the whole stake came in by a later vote. */
  ghost function TimesDue(s: State, accepted: seq<Input>, v: Vote): (r: nat)
    ensures r <= 2
  {
    var threshold := if v.voteType == Skip then s.timeoutThreshold else s.confirmThreshold;
    Due(BackingOf(s.stake, accepted, v), LastStake(s.stake, accepted, v), threshold, s.total)
  }

  function Due(backing: nat, last: nat, threshold: nat, total: nat): nat {
    (if backing >= threshold then 1 else 0) + (if backing >= total && backing - last >= threshold then 1 else 0)
  }

  lemma DueRises(was: nat, last: nat, added: nat, threshold: nat, total: nat)
    requires added > 0 && was + added <= total
    ensures Due(was + added, added, threshold, total) ==
            Due(was, last, threshold, total) +
            if was + added < threshold || (threshold <= was && was + added < total) then 0 else 1
  {
  }

  /** Over every run a block is certified once when its votes cross the threshold, once more when the whole stake has
      come in by a later vote, and never again. */
  lemma {:induction false} IssuedExactly(
    s: State, inputs: seq<Input>, aggregate: seq<Bytes> -> Option<Bytes>, replies: seq<Reply>, v: Vote)
    requires Sound(s) && s.buckets == map[] && s.choices == map[] && IsRun(s, inputs, aggregate, replies)
    ensures TimesIssued(inputs, replies, v) == TimesDue(s, Accepted(s.stake, inputs), v) <= 2
  {
    hide Sound, TimesDue, AnswersHistory, Verdict, Answers, After;
    if inputs == [] {
      NothingDue(s, v);
    } else {
      var n := |inputs| - 1;
      ShorterRun(s, inputs, aggregate, replies);
      IssuedExactly(s, inputs[..n], aggregate, replies[..n], v);
      AnsweredFromHistory(s, inputs, aggregate, replies, n);
      DueNext(s, inputs, aggregate, replies[n], v);
    }
  }

  lemma ShorterRun(s: State, inputs: seq<Input>, aggregate: seq<Bytes> -> Option<Bytes>, replies: seq<Reply>)
    requires IsRun(s, inputs, aggregate, replies) && inputs != []
    ensures IsRun(s, inputs[..|inputs| - 1], aggregate, replies[..|inputs| - 1])
  {
    hide Answers, After;
    var n := |inputs| - 1;
    forall k | 0 <= k < n ensures Answers(After(s, inputs[..n][..k]), inputs[..n][k], aggregate, replies[..n][k]) {
      assert inputs[..n][..k] == inputs[..k];
    }
  }

  lemma NothingDue(s: State, v: Vote)
    requires Sound(s)
    ensures TimesDue(s, [], v) == 0
  {
    hide BucketSound;
    assert Backers([], v) == {};
    assert BackingOf(s.stake, [], v) == 0;
  }

  /** The whole stake bounds what stands behind a block. */
  lemma BackingBounded(s: State, inputs: seq<Input>, v: Vote)
    requires Sound(s) && s.buckets == map[] && s.choices == map[]
    ensures BackingOf(s.stake, Accepted(s.stake, inputs), v) <= s.total
  {
    hide BucketSound, Backers, Accepted, Verdict;
    var backers := Backers(Accepted(s.stake, inputs), v);
    if backers <= s.stake.Keys {
      SumMonotone(s.stake, backers, s.stake.Keys);
    }
  }

  lemma BackingSame(stake: map<ValidatorId, Word>, accepted: seq<Input>, v: Vote, u: Vote)
    requires SameBallot(u, v)
    ensures BackingOf(stake, accepted, u) == BackingOf(stake, accepted, v)
  {
    hide Sum;
    assert Backers(accepted, u) == Backers(accepted, v);
  }

  lemma LastStakeGrows(stake: map<ValidatorId, Word>, accepted: seq<Input>, i: Input, v: Vote)
    requires i.vote.voter in stake
    ensures LastStake(stake, accepted + [i], v) ==
            if SameBallot(i.vote, v) then stake[i.vote.voter] else LastStake(stake, accepted, v)
  {
    assert (accepted + [i])[..|accepted + [i]| - 1] == accepted;
  }

  lemma VerdictRegisters(stake: map<ValidatorId, Word>, accepted: seq<Input>, v: Vote)
    requires Verdict(stake, accepted, v).None?
    ensures v.voter in stake
  {
  }

  lemma DueNext(s: State, inputs: seq<Input>, aggregate: seq<Bytes> -> Option<Bytes>, r: Reply, v: Vote)
    requires Sound(s) && s.buckets == map[] && s.choices == map[] && inputs != []
    requires AnswersHistory(s, Accepted(s.stake, inputs[..|inputs| - 1]), inputs[|inputs| - 1], aggregate, r)
    ensures var before, i := Accepted(s.stake, inputs[..|inputs| - 1]), inputs[|inputs| - 1];
            TimesDue(s, Accepted(s.stake, inputs), v) ==
            TimesDue(s, before, v) + if SameBallot(i.vote, v) && (r.Certified? || r.AggregateFailed?) then 1 else 0
  {
    hide Verdict, BackingOf, StandsFor, Aggregates, Attaches, LastStake, Accepted, Sum, BucketSound, Due, ValidTable;
    var before, i := Accepted(s.stake, inputs[..|inputs| - 1]), inputs[|inputs| - 1];
    AcceptedStep(s.stake, inputs);
    if Verdict(s.stake, before, i.vote).None? {
      VerdictRegisters(s.stake, before, i.vote);
      LastStakeGrows(s.stake, before, i, v);
      BackingBounded(s, inputs, v);
      RegisteredIsPositive(s, i.vote.voter);
      if SameBallot(i.vote, v) {
        BackingSame(s.stake, before, v, i.vote);
        BackingSame(s.stake, before + [i], v, i.vote);
        assert i.vote.voteType == v.voteType;
        DueRises(BackingOf(s.stake, before, v), LastStake(s.stake, before, v), s.stake[i.vote.voter],
                 if v.voteType == Skip then s.timeoutThreshold else s.confirmThreshold, s.total);
      } else {
        OtherBacking(s.stake, before, i, v);
      }
    }
  }

  lemma RegisteredIsPositive(s: State, v: ValidatorId)
    requires Sound(s) && v in s.stake
    ensures s.stake[v] > 0
  {
    hide BucketSound;
    assert ValidEntry(s.stake, v);
  }

  lemma AcceptedStep(stake: map<ValidatorId, Word>, inputs: seq<Input>)
    requires inputs != []
    ensures var before, i := Accepted(stake, inputs[..|inputs| - 1]), inputs[|inputs| - 1];
            Accepted(stake, inputs) == if Verdict(stake, before, i.vote).None? then before + [i] else before
  {
    hide Verdict;
  }

  lemma OtherBacking(stake: map<ValidatorId, Word>, accepted: seq<Input>, i: Input, v: Vote)
    requires !SameBallot(i.vote, v)
    ensures BackingOf(stake, accepted + [i], v) == BackingOf(stake, accepted, v)
  {
    hide Backers, SameBallot, Sum;
    BackersGrow(accepted, i, v);
    assert Backers(accepted, v) + {} == Backers(accepted, v);
  }
}
