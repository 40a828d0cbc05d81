/** The gap between an empty take and the release: when a ready message is left with nobody to deliver it. */
module StrandedMessages {

  import opened Sequencer

  /** The next message is stored and no flush is claimed: it waits for another message of its key. */
  predicate Stranded(s: State, k: Key) {
    !Order(s, k).flushing && Order(s, k).next in Order(s, k).pending
  }

  ghost predicate SomebodyReleases(s: State, k: Key) {
    exists w :: At(s, w) == Releasing(k)
  }

  /** The flusher has found nothing and is about to release, but by now the next message is stored. */
  ghost predicate Overlooked(s: State, k: Key) {
    Order(s, k).next in Order(s, k).pending && SomebodyReleases(s, k)
  }

  predicate SubmitsNext(s: State, a: Action, k: Key) {
    a.Submit? && At(s, a.w).Holding? && At(s, a.w).job.key == k && At(s, a.w).job.number == Order(s, k).next
  }

  predicate ReleasesKey(s: State, a: Action, k: Key) {
    a.Release? && At(s, a.w) == Releasing(k)
  }

  lemma ReleaseEffect(s: State, t: State, w: nat)
    requires At(s, w).Releasing? && t == Step(s, Release(w))
    ensures var k := At(s, w).key;
            && Touches(s, t, w, k) && Order(t, k) == Order(s, k).(flushing := false) && At(t, w) == Idle
  {
  }

  /** Reading, fetching and discarding change no order and move nobody in or out of a flush. */
  lemma QuietStep(s: State, a: Action, k: Key)
    requires a.Read? || a.Fetch? || a.Discard?
    ensures Order(Step(s, a), k) == Order(s, k)
    ensures forall w :: At(Step(s, a), w) == Releasing(k) <==> At(s, w) == Releasing(k)
  {
  }

  /** A dispatch changes no order, and the worker that does it is not releasing. */
  lemma DispatchStep(s: State, a: Action, k: Key)
    requires a.BeginDispatch? || a.EndDispatch?
    ensures Order(Step(s, a), k) == Order(s, k)
    ensures forall w :: At(Step(s, a), w) == Releasing(k) <==> At(s, w) == Releasing(k)
  {
  }

  /** Submitting for another key, or a number other than the next, leaves the next message as it was. */
  lemma SubmitStep(s: State, w: nat, k: Key)
    requires Sound(s)
    ensures var t, a := Step(s, Submit(w)), Submit(w);
            && Order(t, k).next == Order(s, k).next
            && (Order(t, k).next in Order(t, k).pending <==> Order(s, k).next in Order(s, k).pending || SubmitsNext(s, a, k))
            && (Order(s, k).flushing || SubmitsNext(s, a, k) ==> Order(t, k).flushing)
            && (Stranded(t, k) ==> Stranded(s, k))
            && forall v :: At(t, v) == Releasing(k) <==> At(s, v) == Releasing(k)
  {
    hide Sound, Step, At, Order;
    if At(s, w).Holding? {
      SubmitEffect(s, Step(s, Submit(w)), w);
    } else {
      NotEnabled(s, Submit(w));
    }
  }

  lemma NotEnabled(s: State, a: Action)
    requires (a.Submit? && !At(s, a.w).Holding?) || (a.TakeReady? && !At(s, a.w).Taking?) || (a.Release? && !At(s, a.w).Releasing?)
    ensures Step(s, a) == s
  {
    hide Order, Trace, Log;
  }

  /** After a take the next number is not stored, so nothing is overlooked by it or stranded. */
  lemma TakeStep(s: State, w: nat, k: Key)
    requires Sound(s)
    ensures var t := Step(s, TakeReady(w));
            && (Stranded(t, k) <==> Stranded(s, k))
            && (Overlooked(t, k) <==> Overlooked(s, k))
  {
    hide Step, At, Order, Taken, JobsSound, TraceSound, Trace, Log;
    if At(s, w).Taking? {
      var t, own := Step(s, TakeReady(w)), At(s, w).key;
      TakeEffect(s, t, w);
      assert OrderSound(s, own) && OneFlusher(s, own);
      TakenIsStretch(Order(s, own), Log(s, own));
      if own == k {
        assert Flushes(At(s, w), k);
        forall v ensures At(s, v) != Releasing(k) {
          assert Flushes(At(s, v), k) ==> v == w;
        }
      } else {
        assert forall v :: At(t, v) == Releasing(k) <==> At(s, v) == Releasing(k);
      }
    } else {
      NotEnabled(s, TakeReady(w));
    }
  }

  /** A release strands exactly what was overlooked. */
  lemma ReleaseStep(s: State, w: nat, k: Key)
    requires Sound(s)
    ensures var t := Step(s, Release(w));
            && (At(s, w) == Releasing(k) ==> Order(s, k).flushing && (Stranded(t, k) <==> Overlooked(s, k)))
            && (At(s, w) != Releasing(k) ==> (Stranded(t, k) <==> Stranded(s, k)))
            && (Overlooked(t, k) ==> Overlooked(s, k))
  {
    hide Step, At, Order, JobsSound, TraceSound, OrderSound;
    if At(s, w).Releasing? {
      var t, own := Step(s, Release(w)), At(s, w).key;
      ReleaseEffect(s, t, w);
      assert OneFlusher(s, own) && Flushes(At(s, w), own);
      if own != k {
        assert Order(t, k) == Order(s, k);
      }
      assert forall v :: At(t, v) == Releasing(k) ==> At(s, v) == Releasing(k);
    } else {
      NotEnabled(s, Release(w));
    }
  }

  /** In every reachable state the next message becomes overlooked by exactly one kind of step: its own
      submission while the flusher of its key is about to release. */
  lemma OverlookedExactlyBy(s: State, a: Action, k: Key)
    requires Sound(s) && !Overlooked(s, k)
    ensures Overlooked(Step(s, a), k) <==> SubmitsNext(s, a, k) && SomebodyReleases(s, k)
  {
    hide Sound, Step, At, Order;
    match a
    case Read(_, _) => QuietStep(s, a, k);
    case Fetch(_, _) => QuietStep(s, a, k);
    case Discard(_) => QuietStep(s, a, k);
    case BeginDispatch(_) => DispatchStep(s, a, k);
    case EndDispatch(_, _) => DispatchStep(s, a, k);
    case Submit(w) => SubmitStep(s, w, k);
    case TakeReady(w) => TakeStep(s, w, k);
    case Release(w) => ReleaseStep(s, w, k);
  }

  /** And it becomes stranded by exactly one kind of step: the release of a flusher that overlooked it. */
  lemma StrandedExactlyBy(s: State, a: Action, k: Key)
    requires Sound(s) && !Stranded(s, k)
    ensures Stranded(Step(s, a), k) <==> ReleasesKey(s, a, k) && Overlooked(s, k)
  {
    hide Sound, Step, At, Order, Overlooked;
    match a
    case Read(_, _) => QuietStep(s, a, k);
    case Fetch(_, _) => QuietStep(s, a, k);
    case Discard(_) => QuietStep(s, a, k);
    case BeginDispatch(_) => DispatchStep(s, a, k);
    case EndDispatch(_, _) => DispatchStep(s, a, k);
    case Submit(w) => SubmitStep(s, w, k);
    case TakeReady(w) => TakeStep(s, w, k);
    case Release(w) => ReleaseStep(s, w, k);
  }

  lemma {:induction false} OverlookedComesFrom(actions: seq<Action>, k: Key) returns (x: nat)
    requires Overlooked(After(actions), k)
    ensures x < |actions| && SubmitsNext(After(actions[..x]), actions[x], k) && SomebodyReleases(After(actions[..x]), k)
  {
    hide Overlooked, SubmitsNext, SomebodyReleases, Step, Sound;
    NothingAtStart(k);
    assert actions != [];
    var n := |actions| - 1;
    var before := After(actions[..n]);
    AfterSound(actions[..n]);
    if Overlooked(before, k) {
      x := OverlookedComesFrom(actions[..n], k);
      assert actions[..n][..x] == actions[..x];
    } else {
      OverlookedExactlyBy(before, actions[n], k);
      x := n;
    }
  }

  lemma NothingAtStart(k: Key)
    ensures !Overlooked(START, k) && !Stranded(START, k)
  {
  }

  /** Over every run: whenever a key is stranded, the next message of the key was submitted while its flusher was
      about to release, and the key was released after that. */
  lemma {:induction false} StrandedComesFrom(actions: seq<Action>, k: Key) returns (x: nat, y: nat)
    requires Stranded(After(actions), k)
    ensures x < y < |actions| && ReleasesKey(After(actions[..y]), actions[y], k)
    ensures SubmitsNext(After(actions[..x]), actions[x], k) && SomebodyReleases(After(actions[..x]), k)
  {
    hide Overlooked, Stranded, SubmitsNext, SomebodyReleases, ReleasesKey, Step, Sound;
    NothingAtStart(k);
    assert actions != [];
    var n := |actions| - 1;
    var before := After(actions[..n]);
    AfterSound(actions[..n]);
    if Stranded(before, k) {
      x, y := StrandedComesFrom(actions[..n], k);
      assert actions[..n][..x] == actions[..x] && actions[..n][..y] == actions[..y];
    } else {
      StrandedExactlyBy(before, actions[n], k);
      y := n;
      x := OverlookedComesFrom(actions[..n], k);
      assert actions[..n][..x] == actions[..x];
    }
  }

  // ----- It does happen -----

  const KEY: Key := "k"
  const EARLY := Job(KEY, 0, "a")
  const LATE := Job(KEY, 1, "b")

  /** The later message arrives first; its worker finds nothing to take. Before it releases, the earlier message
      is submitted by a worker that sees the claim and leaves. */
  const RACE: seq<Action> := [
    Read(KEY, "a"), Read(KEY, "b"), Fetch(0, LATE), Submit(0), TakeReady(0), Fetch(1, EARLY), Submit(1), Release(0)]

  const BOTH_READ := State(map[KEY := ["a", "b"]], {EARLY, LATE}, map[], map[], map[])
  const CLAIMED := State(map[KEY := ["a", "b"]], {EARLY}, map[KEY := OrderState(0, map[1 := "b"], true)], map[0 := Taking(KEY)], map[])
  const EMPTY_TAKE := CLAIMED.(workers := map[0 := Releasing(KEY)])
  const LEFT_BEHIND := State(
    map[KEY := ["a", "b"]], {}, map[KEY := OrderState(0, map[0 := "a", 1 := "b"], false)], map[0 := Idle, 1 := Idle], map[])

  lemma RaceReads()
    ensures Step(Step(START, RACE[0]), RACE[1]) == BOTH_READ
  {
    assert [] + ["a"] == ["a"] && ["a"] + ["b"] == ["a", "b"];
    assert {} + {EARLY} + {LATE} == {EARLY, LATE};
  }

  lemma RaceClaims()
    ensures Step(Step(BOTH_READ, RACE[2]), RACE[3]) == CLAIMED
  {
    assert {EARLY, LATE} - {LATE} == {EARLY};
  }

  lemma RaceTakes()
    ensures Step(CLAIMED, RACE[4]) == EMPTY_TAKE
  {
    assert Taken(OrderState(0, map[1 := "b"], true)) == ([], OrderState(0, map[1 := "b"], true));
  }

  lemma RaceLeaves()
    ensures Step(Step(Step(EMPTY_TAKE, RACE[5]), RACE[6]), RACE[7]) == LEFT_BEHIND
  {
    assert {EARLY} - {EARLY} == {};
    assert map[1 := "b"][0 := "a"] == map[0 := "a", 1 := "b"];
  }

  lemma AfterOne(actions: seq<Action>, n: nat)
    requires n < |actions|
    ensures After(actions[..n + 1]) == Step(After(actions[..n]), actions[n])
  {
    assert actions[..n + 1][..n] == actions[..n];
  }

  /** The race leaves both messages ready with nobody to deliver them. */
  lemma StrandingHappens()
    ensures Stranded(After(RACE), KEY) && After(RACE).jobs == {} && Trace(After(RACE), KEY) == []
    ensures forall w :: At(After(RACE), w).Idle?
  {
    hide Step, After;
    RaceEnds();
  }

  lemma RaceEnds()
    ensures After(RACE) == LEFT_BEHIND
  {
    hide Step;
    assert RACE[..0] == [] && RACE[..8] == RACE;
    AfterOne(RACE, 0);
    AfterOne(RACE, 1);
    AfterOne(RACE, 2);
    AfterOne(RACE, 3);
    AfterOne(RACE, 4);
    AfterOne(RACE, 5);
    AfterOne(RACE, 6);
    AfterOne(RACE, 7);
    RaceReads();
    RaceClaims();
    RaceTakes();
    RaceLeaves();
  }
}
