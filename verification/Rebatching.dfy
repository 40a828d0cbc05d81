/** Batching the output of a run again: the verifier's batches against the producer's. */
module Rebatching {

  import opened Wrappers
  import opened ChainState
  import opened ParallelExecution

  /** The batches of a run in which every selected transaction is included. */
  function Batches(pending: seq<Tx>, capacity: nat): Option<seq<seq<Tx>>>
    decreases |pending|
  {
    if pending == [] || capacity == 0 then Some([])
    else
      var selected := Select(pending, capacity, UNLOCKED);
      if selected.None? || selected.value.0 == [] then None
      else
        SelectPartitions(pending, capacity, UNLOCKED);
        var (batch, rest) := selected.value;
        var more := Batches(rest, capacity - |batch|);
        if more.None? then None else Some([batch] + more.value)
  }

  function Flatten(batches: seq<seq<Tx>>): seq<Tx> {
    if batches == [] then [] else batches[0] + Flatten(batches[1..])
  }

  function LockedAll(l: Locks, batch: seq<Tx>): Locks
    decreases |batch|
  {
    if batch == [] then l else LockedAll(Locked(l, batch[0]), batch[1..])
  }

  predicate Blocked(l: Locks, txs: seq<Tx>) {
    forall i :: 0 <= i < |txs| ==> txs[i].lockable && !Compatible(l, txs[i])
  }

  // ----- One selection -----

  lemma {:induction false} StaysBlocked(l: Locks, batch: seq<Tx>, t: Tx)
    requires !Compatible(l, t)
    ensures !Compatible(LockedAll(l, batch), t)
    decreases |batch|
  {
    if batch != [] {
      StaysBlocked(Locked(l, batch[0]), batch[1..], t);
    }
  }

  /** A selection that did not fill up passed over exactly what its locks exclude. */
  lemma {:induction false} PassedOverIsBlocked(pending: seq<Tx>, capacity: nat, l: Locks)
    requires Select(pending, capacity, l).Some?
    requires |Select(pending, capacity, l).value.0| < capacity
    ensures var (batch, rest) := Select(pending, capacity, l).value; Blocked(LockedAll(l, batch), rest)
  {
    if pending != [] {
      var first := pending[0];
      if Compatible(l, first) {
        PassedOverIsBlocked(pending[1..], capacity - 1, Locked(l, first));
        var (tail, rest) := Select(pending[1..], capacity - 1, Locked(l, first)).value;
        assert ([first] + tail)[1..] == tail;
      } else {
        PassedOverIsBlocked(pending[1..], capacity, l);
        StaysBlocked(l, Select(pending[1..], capacity, l).value.0, first);
      }
    }
  }

  lemma {:induction false} BlockedIsPassedOver(txs: seq<Tx>, capacity: nat, l: Locks)
    requires Blocked(l, txs)
    ensures Select(txs, capacity, l) == Some(([], txs))
  {
    if txs != [] && capacity > 0 {
      BlockedIsPassedOver(txs[1..], capacity, l);
      assert txs == [txs[0]] + txs[1..];
    }
  }

  /** Selecting from a batch followed by what its locks exclude selects the batch again. */
  lemma {:induction false} SelectAgain(pending: seq<Tx>, capacity: nat, l: Locks, suffix: seq<Tx>, spare: nat)
    requires Select(pending, capacity, l).Some?
    requires Blocked(LockedAll(l, Select(pending, capacity, l).value.0), suffix)
    ensures var batch := Select(pending, capacity, l).value.0;
            Select(batch + suffix, |batch| + spare, l) == Some((batch, suffix))
  {
    var batch := Select(pending, capacity, l).value.0;
    if pending == [] || capacity == 0 {
      assert batch + suffix == suffix;
      BlockedIsPassedOver(suffix, spare, l);
    } else if Compatible(l, pending[0]) {
      var tail := Select(pending[1..], capacity - 1, Locked(l, pending[0])).value.0;
      assert batch[1..] == tail && (batch + suffix)[1..] == tail + suffix;
      SelectAgain(pending[1..], capacity - 1, Locked(l, pending[0]), suffix, spare);
    } else {
      SelectAgain(pending[1..], capacity, l, suffix, spare);
    }
  }

  // ----- The fixed point -----

  lemma {:induction false} BatchesComeFrom(pending: seq<Tx>, capacity: nat)
    requires Batches(pending, capacity).Some?
    ensures multiset(Flatten(Batches(pending, capacity).value)) <= multiset(pending)
    decreases |pending|
  {
    if pending != [] && capacity > 0 {
      var (batch, rest) := Select(pending, capacity, UNLOCKED).value;
      SelectPartitions(pending, capacity, UNLOCKED);
      BatchesComeFrom(rest, capacity - |batch|);
    }
  }

  lemma BlockedPart(l: Locks, txs: seq<Tx>, part: seq<Tx>)
    requires Blocked(l, txs) && multiset(part) <= multiset(txs)
    ensures Blocked(l, part)
  {
    forall i | 0 <= i < |part| ensures part[i].lockable && !Compatible(l, part[i]) {
      assert part[i] in multiset(part);
      assert part[i] in multiset(txs);
    }
  }

  /** What follows the first batch cannot join it. */
  lemma LaterIsBlocked(pending: seq<Tx>, capacity: nat)
    requires Batches(pending, capacity).Some? && pending != [] && capacity > 0
    ensures var (batch, rest) := Select(pending, capacity, UNLOCKED).value;
            && |batch| <= capacity && Batches(rest, capacity - |batch|).Some?
            && Blocked(LockedAll(UNLOCKED, batch), Flatten(Batches(rest, capacity - |batch|).value))
  {
    var (batch, rest) := Select(pending, capacity, UNLOCKED).value;
    SelectPartitions(pending, capacity, UNLOCKED);
    if |batch| < capacity {
      PassedOverIsBlocked(pending, capacity, UNLOCKED);
      BatchesComeFrom(rest, capacity - |batch|);
      BlockedPart(LockedAll(UNLOCKED, batch), rest, Flatten(Batches(rest, capacity - |batch|).value));
    }
  }

  /** Re-batching is a fixed point: the flattened batches, taken as the whole block, fall into the same
      batches in the same order. */
  lemma {:induction false} RebatchingFixedPoint(pending: seq<Tx>, capacity: nat)
    requires Batches(pending, capacity).Some?
    ensures var batches := Batches(pending, capacity).value;
            Batches(Flatten(batches), |Flatten(batches)|) == Some(batches)
    decreases |pending|
  {
    if pending != [] && capacity > 0 {
      var (batch, rest) := Select(pending, capacity, UNLOCKED).value;
      SelectPartitions(pending, capacity, UNLOCKED);
      var more := Batches(rest, capacity - |batch|).value;
      RebatchingFixedPoint(rest, capacity - |batch|);
      LaterIsBlocked(pending, capacity);
      SelectAgain(pending, capacity, UNLOCKED, Flatten(more), |Flatten(more)|);
      assert Batches(pending, capacity).value == [batch] + more;
      assert ([batch] + more)[1..] == more;
      assert Flatten([batch] + more) == batch + Flatten(more);
      PrependBatch(batch, Flatten(more), more);
    }
  }

  lemma PrependBatch(batch: seq<Tx>, rest: seq<Tx>, more: seq<seq<Tx>>)
    requires batch != [] && Batches(rest, |rest|) == Some(more)
    requires Select(batch + rest, |batch| + |rest|, UNLOCKED) == Some((batch, rest))
    ensures Batches(batch + rest, |batch + rest|) == Some([batch] + more)
  {
    hide Select, Batches;
    BatchesRound(batch + rest, |batch| + |rest|, batch, rest);
  }

  // ----- Exactly when batches come back -----

  /** Every batch selects itself, and its locks exclude everything after it. */
  predicate Stable(batches: seq<seq<Tx>>) {
    batches == [] ||
    (&& batches[0] != [] && SelectsItself(batches[0])
     && Blocked(LockedAll(UNLOCKED, batches[0]), Flatten(batches[1..]))
     && Stable(batches[1..]))
  }

  predicate SelectsItself(batch: seq<Tx>) {
    Select(batch, |batch|, UNLOCKED) == Some((batch, []))
  }

  /** How many transactions at the front get their locks one after another. */
  function FrontRun(txs: seq<Tx>, l: Locks): (n: nat)
    ensures n <= |txs|
  {
    if txs == [] || !Compatible(l, txs[0]) then 0 else 1 + FrontRun(txs[1..], Locked(l, txs[0]))
  }

  predicate AllLockable(txs: seq<Tx>) {
    forall i :: 0 <= i < |txs| ==> txs[i].lockable
  }

  /** A selection that begins with what was pending passed nothing over before the batch ended: the batch is the
      longest front that gets its locks, and those locks exclude all the rest. */
  lemma {:induction false} SelectedFront(txs: seq<Tx>, capacity: nat, l: Locks)
    requires |txs| <= capacity && Select(txs, capacity, l).Some?
    requires Select(txs, capacity, l).value.0 <= txs
    ensures var (batch, rest) := Select(txs, capacity, l).value;
            && txs == batch + rest && |batch| == FrontRun(txs, l)
            && AllLockable(txs) && Blocked(LockedAll(l, batch), rest)
  {
    if txs != [] {
      var batch := Select(txs, capacity, l).value.0;
      if Compatible(l, txs[0]) {
        var tail := Select(txs[1..], capacity - 1, Locked(l, txs[0])).value.0;
        assert batch[1..] == tail;
        SelectedFront(txs[1..], capacity - 1, Locked(l, txs[0]));
      } else {
        SelectedIndependent(txs, capacity, l);
        assert batch == [];
        SelectedFront(txs[1..], capacity, l);
      }
    }
  }

  lemma {:induction false} SelectsFront(txs: seq<Tx>, capacity: nat, l: Locks)
    requires |txs| <= capacity && AllLockable(txs)
    requires Blocked(LockedAll(l, txs[..FrontRun(txs, l)]), txs[FrontRun(txs, l)..])
    ensures var k := FrontRun(txs, l); Select(txs, capacity, l) == Some((txs[..k], txs[k..]))
  {
    var k := FrontRun(txs, l);
    if k == 0 {
      assert txs[..0] == [] && txs[0..] == txs;
      BlockedIsPassedOver(txs, capacity, l);
    } else {
      assert txs[..k][1..] == txs[1..][..k - 1] && txs[1..][k - 1..] == txs[k..];
      SelectsFront(txs[1..], capacity - 1, Locked(l, txs[0]));
      assert txs[..k] == [txs[0]] + txs[1..][..k - 1];
    }
  }

  lemma {:induction false} StableComesBack(batches: seq<seq<Tx>>)
    requires Stable(batches)
    ensures Batches(Flatten(batches), |Flatten(batches)|) == Some(batches)
  {
    if batches != [] {
      var first, later := batches[0], Flatten(batches[1..]);
      StableComesBack(batches[1..]);
      SelectAgain(first, |first|, UNLOCKED, later, |later|);
      PrependBatch(first, later, batches[1..]);
      assert [first] + batches[1..] == batches;
    }
  }

  lemma {:induction false} ComesBackStable(batches: seq<seq<Tx>>)
    requires Batches(Flatten(batches), |Flatten(batches)|) == Some(batches)
    ensures Stable(batches)
  {
    if batches != [] {
      var all := Flatten(batches);
      assert all != [];
      var (first, rest) := Select(all, |all|, UNLOCKED).value;
      BatchesRound(all, |all|, first, rest);
      assert first == batches[0] && Batches(rest, |all| - |first|) == Some(batches[1..]);
      SelectedFront(all, |all|, UNLOCKED);
      assert rest == all[|first|..] == Flatten(batches[1..]);
      SelectAgain(all, |all|, UNLOCKED, [], 0);
      assert first + [] == first;
      ComesBackStable(batches[1..]);
    }
  }

  /** Any batches, published as one list, are batched the same way again exactly when each selects itself and its
      locks exclude everything after it. */
  lemma RebatchedExactlyWhen(batches: seq<seq<Tx>>)
    ensures Batches(Flatten(batches), |Flatten(batches)|) == Some(batches) <==> Stable(batches)
  {
    if Stable(batches) {
      StableComesBack(batches);
    } else if Batches(Flatten(batches), |Flatten(batches)|) == Some(batches) {
      ComesBackStable(batches);
    }
  }

  /** The list can be cut into batches without moving anything: wherever the front stops getting its locks, the
      locks held there exclude all that follows. Only declared accounts are looked at. */
  predicate KeepsOrder(txs: seq<Tx>)
    decreases |txs|
  {
    txs == [] ||
    var k := FrontRun(txs, UNLOCKED);
    && 0 < k && AllLockable(txs)
    && Blocked(LockedAll(UNLOCKED, txs[..k]), txs[k..])
    && KeepsOrder(txs[k..])
  }

  lemma {:induction false} OrderIsKept(txs: seq<Tx>)
    requires KeepsOrder(txs)
    ensures Batches(txs, |txs|).Some? && Flatten(Batches(txs, |txs|).value) == txs
    decreases |txs|
  {
    if txs != [] {
      var k := FrontRun(txs, UNLOCKED);
      SelectsFront(txs, |txs|, UNLOCKED);
      BatchesRound(txs, |txs|, txs[..k], txs[k..]);
      OrderIsKept(txs[k..]);
      var more := Batches(txs[k..], |txs| - k).value;
      assert ([txs[..k]] + more)[1..] == more;
    }
  }

  lemma {:induction false} OrderWasKept(txs: seq<Tx>)
    requires Batches(txs, |txs|).Some? && Flatten(Batches(txs, |txs|).value) == txs
    ensures KeepsOrder(txs)
    decreases |txs|
  {
    if txs != [] {
      var (batch, rest) := Select(txs, |txs|, UNLOCKED).value;
      BatchesRound(txs, |txs|, batch, rest);
      var more := Batches(rest, |txs| - |batch|).value;
      assert ([batch] + more)[1..] == more;
      assert txs == batch + Flatten(more);
      SelectedFront(txs, |txs|, UNLOCKED);
      assert rest == txs[|batch|..] == Flatten(more);
      assert txs[..|batch|] == batch;
      OrderWasKept(rest);
    }
  }

  /** Batching a list keeps its order exactly when the declared accounts say so. */
  lemma OrderKeptExactlyWhen(txs: seq<Tx>)
    ensures KeepsOrder(txs) <==> Batches(txs, |txs|).Some? && Flatten(Batches(txs, |txs|).value) == txs
  {
    if KeepsOrder(txs) {
      OrderIsKept(txs);
    } else if Batches(txs, |txs|).Some? && Flatten(Batches(txs, |txs|).value) == txs {
      OrderWasKept(txs);
    }
  }

  // ----- Producer and verifier -----

  function RunBatches(c: Config, r: Run, batches: seq<seq<Tx>>): Option<Run>
    decreases |batches|
  {
    if batches == [] then Some(r)
    else
      var next := BatchStep(c, r, batches[0]);
      if next.None? then None else RunBatches(c, next.value, batches[1..])
  }

  /** A batch in which nothing is rejected is applied alike by producer and verifier, and is appended whole. */
  lemma {:induction false} AppliedWhole(c: Config, strict: Config, r: Run, batch: seq<Tx>, results: seq<Execution>)
    requires strict == c.(maxIncluded := strict.maxIncluded, rejectFailed := true)
    requires |batch| == |results| && AppliedAll(c, r, batch, results).Some?
    requires AppliedAll(c, r, batch, results).value.out.rejected == r.out.rejected
    ensures AppliedAll(strict, r, batch, results) == AppliedAll(c, r, batch, results)
    ensures AppliedAll(c, r, batch, results).value.out.transactions == r.out.transactions + batch
  {
    if batch != [] {
      var n := |batch| - 1;
      AppliedLists(c, r, batch[..n], results[..n]);
      var front, all := AppliedAll(c, r, batch[..n], results[..n]).value, AppliedAll(c, r, batch, results).value;
      assert |all.out.rejected| == |front.out.rejected| + if results[n].confirmed then 0 else 1;
      AppliedWhole(c, strict, r, batch[..n], results[..n]);
      assert batch == batch[..n] + [batch[n]];
    }
  }

  lemma StepWhole(c: Config, strict: Config, r: Run, batch: seq<Tx>)
    requires strict == c.(maxIncluded := strict.maxIncluded, rejectFailed := true)
    requires BatchStep(c, r, batch).Some? && BatchStep(c, r, batch).value.out.rejected == r.out.rejected
    ensures BatchStep(strict, r, batch) == BatchStep(c, r, batch)
    ensures BatchStep(c, r, batch).value.out.transactions == r.out.transactions + batch
  {
    ResultsAt(c, r.state, r.processed, batch);
    SameResults(c, strict, r.state, r.processed, batch);
    AppliedWhole(c, strict, r, batch, Results(c, r.state, r.processed, batch).value);
  }

  lemma {:induction false} SameResults(c: Config, d: Config, state: Accounts, processed: set<TxId>, batch: seq<Tx>)
    requires c.execute == d.execute
    ensures Results(c, state, processed, batch) == Results(d, state, processed, batch)
  {
    if batch != [] {
      SameResults(c, d, state, processed, batch[..|batch| - 1]);
    }
  }

  lemma {:induction false} RejectedOnlyGrows(c: Config, pending: seq<Tx>, r: Run)
    requires Parallel(c, pending, r).Some?
    ensures r.out.rejected <= Parallel(c, pending, r).value.0.out.rejected
    decreases |pending|
  {
    if pending != [] && |r.out.transactions| < c.maxIncluded {
      var capacity := c.maxIncluded - |r.out.transactions|;
      var (batch, rest) := Select(pending, capacity, UNLOCKED).value;
      SelectPartitions(pending, capacity, UNLOCKED);
      var results := Results(c, r.state, r.processed, batch).value;
      ResultsAt(c, r.state, r.processed, batch);
      AppliedLists(c, r, batch, results);
      RejectedOnlyGrows(c, rest, BatchStep(c, r, batch).value);
    }
  }

  // One round of each of the three recursions.

  lemma ParallelRound(c: Config, pending: seq<Tx>, r: Run, batch: seq<Tx>, rest: seq<Tx>)
    requires pending != [] && |r.out.transactions| < c.maxIncluded && batch != []
    requires Select(pending, c.maxIncluded - |r.out.transactions|, UNLOCKED) == Some((batch, rest))
    ensures var next := BatchStep(c, r, batch);
            Parallel(c, pending, r) == if next.None? then None else Parallel(c, rest, next.value)
    ensures |rest| < |pending| && |r.out.transactions| + |batch| <= c.maxIncluded && |batch| + |rest| == |pending|
  {
    hide Select, BatchStep;
    SelectPartitions(pending, c.maxIncluded - |r.out.transactions|, UNLOCKED);
  }

  lemma BatchesRound(pending: seq<Tx>, capacity: nat, batch: seq<Tx>, rest: seq<Tx>)
    requires pending != [] && 0 < capacity && batch != []
    requires Select(pending, capacity, UNLOCKED) == Some((batch, rest))
    ensures |batch| <= capacity && |rest| < |pending|
    ensures var more := Batches(rest, capacity - |batch|);
            Batches(pending, capacity) == if more.None? then None else Some([batch] + more.value)
  {
    hide Select;
    SelectPartitions(pending, capacity, UNLOCKED);
  }

  lemma RunRound(c: Config, r: Run, batch: seq<Tx>, more: seq<seq<Tx>>)
    ensures var next := BatchStep(c, r, batch);
            RunBatches(c, r, [batch] + more) == if next.None? then None else RunBatches(c, next.value, more)
    ensures Flatten([batch] + more) == batch + Flatten(more)
  {
    assert ([batch] + more)[1..] == more;
  }

  /** A run without rejections is the run of its batches. */
  lemma {:induction false} ParallelAsBatches(c: Config, strict: Config, pending: seq<Tx>, r: Run)
    returns (batches: seq<seq<Tx>>)
    requires strict == c.(maxIncluded := strict.maxIncluded, rejectFailed := true)
    requires |r.out.transactions| <= c.maxIncluded && Parallel(c, pending, r).Some?
    requires Parallel(c, pending, r).value.0.out.rejected == r.out.rejected
    ensures var s := Parallel(c, pending, r).value.0;
            && Batches(pending, c.maxIncluded - |r.out.transactions|) == Some(batches)
            && RunBatches(strict, r, batches) == Some(s)
            && s.out.transactions == r.out.transactions + Flatten(batches)
    decreases |pending|
  {
    hide Select, BatchStep;
    if pending == [] || |r.out.transactions| == c.maxIncluded {
      return [];
    }
    var capacity := c.maxIncluded - |r.out.transactions|;
    var (batch, rest) := Select(pending, capacity, UNLOCKED).value;
    var next := BatchStep(c, r, batch).value;
    ParallelRound(c, pending, r, batch, rest);
    NothingRejected(c, r, batch, rest);
    StepWhole(c, strict, r, batch);
    var more := ParallelAsBatches(c, strict, rest, next);
    BatchesRound(pending, capacity, batch, rest);
    RunRound(strict, r, batch, more);
    assert r.out.transactions + batch + Flatten(more) == r.out.transactions + (batch + Flatten(more));
    batches := [batch] + more;
  }

  /** If a run ends with what was rejected before it, none of its steps rejected anything. */
  lemma NothingRejected(c: Config, r: Run, batch: seq<Tx>, rest: seq<Tx>)
    requires BatchStep(c, r, batch).Some? && Parallel(c, rest, BatchStep(c, r, batch).value).Some?
    requires Parallel(c, rest, BatchStep(c, r, batch).value).value.0.out.rejected == r.out.rejected
    ensures BatchStep(c, r, batch).value.out.rejected == r.out.rejected
  {
    RejectedOnlyGrows(c, rest, BatchStep(c, r, batch).value);
    ResultsAt(c, r.state, r.processed, batch);
    AppliedLists(c, r, batch, Results(c, r.state, r.processed, batch).value);
  }

  /** A verifier that gets through includes every transaction of every batch. */
  lemma {:induction false} StrictApplied(strict: Config, r: Run, batch: seq<Tx>, results: seq<Execution>)
    requires strict.rejectFailed && |batch| == |results| && AppliedAll(strict, r, batch, results).Some?
    ensures AppliedAll(strict, r, batch, results).value.out.transactions == r.out.transactions + batch
  {
    if batch != [] {
      var n := |batch| - 1;
      StrictApplied(strict, r, batch[..n], results[..n]);
      assert batch == batch[..n] + [batch[n]];
    }
  }

  /** Running the batches of a list that fits is running the list. */
  lemma {:induction false} BatchesAsParallel(strict: Config, pending: seq<Tx>, r: Run, batches: seq<seq<Tx>>)
    requires strict.rejectFailed && |r.out.transactions| <= strict.maxIncluded
    requires Batches(pending, strict.maxIncluded - |r.out.transactions|) == Some(batches)
    requires RunBatches(strict, r, batches).Some?
    ensures var whole := Parallel(strict, pending, r);
            && whole.Some? && Some(whole.value.0) == RunBatches(strict, r, batches)
            && |whole.value.1| + |Flatten(batches)| == |pending|
    decreases |pending|
  {
    if pending != [] && |r.out.transactions| < strict.maxIncluded {
      var capacity := strict.maxIncluded - |r.out.transactions|;
      var (batch, rest) := Select(pending, capacity, UNLOCKED).value;
      ParallelRound(strict, pending, r, batch, rest);
      BatchesRound(pending, capacity, batch, rest);
      var more := Batches(rest, capacity - |batch|).value;
      RunRound(strict, r, batch, more);
      StrictStep(strict, r, batch);
      BatchesAsParallel(strict, rest, BatchStep(strict, r, batch).value, more);
    }
  }

  lemma StrictStep(strict: Config, r: Run, batch: seq<Tx>)
    requires strict.rejectFailed && BatchStep(strict, r, batch).Some?
    ensures BatchStep(strict, r, batch).value.out.transactions == r.out.transactions + batch
  {
    ResultsAt(strict, r.state, r.processed, batch);
    StrictApplied(strict, r, batch, Results(strict, r.state, r.processed, batch).value);
  }

  /** Producer and verifier agree: when nothing was rejected, executing the produced block with failures
      forbidden gives the producer's account map, receipts, fees and resource usage, and leaves nothing over. */
  lemma VerifierAgrees(c: Config, transactions: seq<Tx>, state: Accounts, processed: set<TxId>)
    requires Parallel(c, transactions, Run(state, processed, EMPTY_OUTPUT)).Some?
    requires Parallel(c, transactions, Run(state, processed, EMPTY_OUTPUT)).value.0.out.rejected == []
    ensures var start := Run(state, processed, EMPTY_OUTPUT);
            var produced := Parallel(c, transactions, start).value.0;
            var strict := c.(maxIncluded := |produced.out.transactions|, rejectFailed := true);
            Parallel(strict, produced.out.transactions, start) == Some((produced, []))
  {
    hide Parallel, Batches, RunBatches, Flatten;
    var start := Run(state, processed, EMPTY_OUTPUT);
    var produced := Parallel(c, transactions, start).value.0;
    var strict := c.(maxIncluded := |produced.out.transactions|, rejectFailed := true);
    var batches := ParallelAsBatches(c, strict, transactions, start);
    RebatchingFixedPoint(transactions, c.maxIncluded);
    assert produced.out.transactions == [] + Flatten(batches) == Flatten(batches);
    BatchesAsParallel(strict, produced.out.transactions, start, batches);
  }

  // ----- With rejections: the confirmed batches -----

  /** The confirmed part of every batch of a run that confirms anything. */
  function ConfirmedBatches(c: Config, pending: seq<Tx>, r: Run): seq<seq<Tx>>
    requires Parallel(c, pending, r).Some?
    decreases |pending|
  {
    if pending == [] || |r.out.transactions| >= c.maxIncluded then []
    else
      var (batch, rest) := Select(pending, c.maxIncluded - |r.out.transactions|, UNLOCKED).value;
      SelectPartitions(pending, c.maxIncluded - |r.out.transactions|, UNLOCKED);
      var confirmed := ConfirmedPart(c, r, batch);
      (if confirmed == [] then [] else [confirmed]) + ConfirmedBatches(c, rest, BatchStep(c, r, batch).value)
  }

  function ConfirmedPart(c: Config, r: Run, batch: seq<Tx>): seq<Tx>
    requires BatchStep(c, r, batch).Some?
  {
    ResultsAt(c, r.state, r.processed, batch);
    Chosen(batch, Results(c, r.state, r.processed, batch).value, true)
  }

  lemma {:induction false} SelectedLockable(pending: seq<Tx>, capacity: nat, l: Locks)
    requires Select(pending, capacity, l).Some?
    ensures AllLockable(Select(pending, capacity, l).value.0)
  {
    if pending != [] && capacity > 0 {
      if Compatible(l, pending[0]) {
        SelectedLockable(pending[1..], capacity - 1, Locked(l, pending[0]));
      } else {
        SelectedLockable(pending[1..], capacity, l);
      }
    }
  }

  /** Without conflicts everything is selected. */
  lemma {:induction false} IndependentSelectsItself(batch: seq<Tx>, l: Locks)
    requires PairwiseIndependent(batch) && AllLockable(batch)
    requires forall i :: 0 <= i < |batch| ==> Compatible(l, batch[i])
    ensures Select(batch, |batch|, l) == Some((batch, []))
  {
    if batch != [] {
      var first, rest := batch[0], batch[1..];
      forall i | 0 <= i < |rest| ensures Compatible(Locked(l, first), rest[i]) {
        assert rest[i] == batch[i + 1] && Independent(batch[0], batch[i + 1]);
      }
      assert PairwiseIndependent(rest) by {
        forall i, j | 0 <= i < j < |rest| ensures Independent(rest[i], rest[j]) {
          assert Independent(batch[i + 1], batch[j + 1]);
        }
      }
      IndependentSelectsItself(rest, Locked(l, first));
      assert batch == [first] + rest;
    }
  }

  lemma {:induction false} ChosenIndependent(batch: seq<Tx>, results: seq<Execution>, t: Tx)
    requires |batch| == |results| && PairwiseIndependent(batch) && AllLockable(batch)
    requires forall i :: 0 <= i < |batch| ==> Independent(batch[i], t)
    ensures var chosen := Chosen(batch, results, true);
            && PairwiseIndependent(chosen) && AllLockable(chosen)
            && forall i :: 0 <= i < |chosen| ==> Independent(chosen[i], t)
  {
    if batch != [] {
      var n := |batch| - 1;
      ChosenIndependent(batch[..n], results[..n], t);
      ChosenIndependent(batch[..n], results[..n], batch[n]);
    }
  }

  const IDLE := Tx(0, {}, {}, true, 0)

  lemma ConfirmedSelectsItself(c: Config, pending: seq<Tx>, capacity: nat, r: Run)
    requires Select(pending, capacity, UNLOCKED).Some?
    requires BatchStep(c, r, Select(pending, capacity, UNLOCKED).value.0).Some?
    ensures SelectsItself(ConfirmedPart(c, r, Select(pending, capacity, UNLOCKED).value.0))
  {
    var batch := Select(pending, capacity, UNLOCKED).value.0;
    SelectedIndependent(pending, capacity, UNLOCKED);
    SelectedLockable(pending, capacity, UNLOCKED);
    ResultsAt(c, r.state, r.processed, batch);
    ChosenIndependent(batch, Results(c, r.state, r.processed, batch).value, IDLE);
    IndependentSelectsItself(ConfirmedPart(c, r, batch), UNLOCKED);
  }

  ghost predicate AllSelectThemselves(batches: seq<seq<Tx>>) {
    forall k :: 0 <= k < |batches| ==> batches[k] != [] && SelectsItself(batches[k])
  }

  lemma FlattenFirst(first: seq<Tx>, more: seq<seq<Tx>>)
    ensures Flatten((if first == [] then [] else [first]) + more) == first + Flatten(more)
  {
    if first == [] {
      assert [] + more == more && [] + Flatten(more) == Flatten(more);
    } else {
      assert ([first] + more)[1..] == more;
    }
  }

  /** What a run includes is its confirmed batches, each of which selects itself. */
  lemma {:induction false} IncludedIsConfirmed(c: Config, pending: seq<Tx>, r: Run)
    requires Parallel(c, pending, r).Some?
    ensures var bs := ConfirmedBatches(c, pending, r);
            && Parallel(c, pending, r).value.0.out.transactions == r.out.transactions + Flatten(bs)
            && AllSelectThemselves(bs)
    decreases |pending|
  {
    hide Select, BatchStep, SelectsItself, Chosen, Results;
    if pending != [] && |r.out.transactions| < c.maxIncluded {
      var capacity := c.maxIncluded - |r.out.transactions|;
      var (batch, rest) := Select(pending, capacity, UNLOCKED).value;
      var next, confirmed := BatchStep(c, r, batch).value, ConfirmedPart(c, r, batch);
      ParallelRound(c, pending, r, batch, rest);
      StepIncludes(c, r, batch);
      IncludedIsConfirmed(c, rest, next);
      ConfirmedSelectsItself(c, pending, capacity, r);
      var more := ConfirmedBatches(c, rest, next);
      FlattenFirst(confirmed, more);
      assert r.out.transactions + confirmed + Flatten(more) == r.out.transactions + (confirmed + Flatten(more));
    }
  }

  lemma StepIncludes(c: Config, r: Run, batch: seq<Tx>)
    requires BatchStep(c, r, batch).Some?
    ensures BatchStep(c, r, batch).value.out.transactions == r.out.transactions + ConfirmedPart(c, r, batch)
  {
    ResultsAt(c, r.state, r.processed, batch);
    AppliedLists(c, r, batch, Results(c, r.state, r.processed, batch).value);
  }

  /** The locks of every batch exclude everything after it. */
  predicate BlocksLater(batches: seq<seq<Tx>>) {
    batches == [] ||
    (Blocked(LockedAll(UNLOCKED, batches[0]), Flatten(batches[1..])) && BlocksLater(batches[1..]))
  }

  lemma {:induction false} StableIsBlocking(batches: seq<seq<Tx>>)
    requires AllSelectThemselves(batches)
    ensures Stable(batches) <==> BlocksLater(batches)
  {
    hide Blocked, SelectsItself;
    if batches != [] {
      assert batches[0] != [] && SelectsItself(batches[0]);
      StableIsBlocking(batches[1..]);
    }
  }

  /** Re-batching after any run, rejections or not: the published list falls into the confirmed batches of the run
      exactly when the locks of each, without those of its rejected members, still exclude everything after it. */
  lemma RebatchingExactlyWhen(c: Config, transactions: seq<Tx>, r: Run)
    requires Parallel(c, transactions, r).Some? && r.out.transactions == []
    ensures var published := Parallel(c, transactions, r).value.0.out.transactions;
            var confirmed := ConfirmedBatches(c, transactions, r);
            Batches(published, |published|) == Some(confirmed) <==> BlocksLater(confirmed)
  {
    hide Batches, Stable, BlocksLater, Parallel, ConfirmedBatches;
    var confirmed := ConfirmedBatches(c, transactions, r);
    IncludedIsConfirmed(c, transactions, r);
    assert [] + Flatten(confirmed) == Flatten(confirmed);
    RebatchedExactlyWhen(confirmed);
    StableIsBlocking(confirmed);
  }

  // ----- With rejections: the verifier's run -----

  /** A verifier that gets through includes the batches of what it was given, in their order. */
  lemma {:induction false} StrictIncludes(strict: Config, pending: seq<Tx>, r: Run)
    requires strict.rejectFailed && |r.out.transactions| <= strict.maxIncluded && Parallel(strict, pending, r).Some?
    ensures var batches := Batches(pending, strict.maxIncluded - |r.out.transactions|);
            && batches.Some?
            && Parallel(strict, pending, r).value.0.out.transactions == r.out.transactions + Flatten(batches.value)
    decreases |pending|
  {
    hide Select, BatchStep;
    if pending != [] && |r.out.transactions| < strict.maxIncluded {
      var capacity := strict.maxIncluded - |r.out.transactions|;
      var (batch, rest) := Select(pending, capacity, UNLOCKED).value;
      ParallelRound(strict, pending, r, batch, rest);
      BatchesRound(pending, capacity, batch, rest);
      StrictStep(strict, r, batch);
      StrictIncludes(strict, rest, BatchStep(strict, r, batch).value);
      var more := Batches(rest, capacity - |batch|).value;
      FlattenFirst(batch, more);
      assert r.out.transactions + batch + Flatten(more) == r.out.transactions + (batch + Flatten(more));
    }
  }

  /** The run's meter has room for the transactions executed one by one. */
  ghost predicate HasRoom(c: Config, r: Run, txs: seq<Tx>) {
    AtMost(Plus(r.out.units, UnitsOf(c.execute, OutcomeOf(r), txs)), c.limit)
  }

  /** What executing the transactions one by one does, `s` has done to `r`. */
  ghost predicate DoneSerially(c: Config, r: Run, txs: seq<Tx>, s: Run) {
    && OneByOne(c.execute, OutcomeOf(r), txs) == Some(OutcomeOf(s))
    && s.out.transactions == r.out.transactions + txs
    && s.out.units == Plus(r.out.units, UnitsOf(c.execute, OutcomeOf(r), txs))
  }

  /** A batch without conflicts that can be executed one by one can be executed as a batch, to the same effect. */
  lemma {:induction false} SerialAsBatch(c: Config, r: Run, batch: seq<Tx>)
    requires Framed(c.execute) && PairwiseIndependent(batch) && Identified(batch)
    requires OneByOne(c.execute, OutcomeOf(r), batch).Some? && HasRoom(c, r, batch)
    ensures BatchStep(c, r, batch).Some? && DoneSerially(c, r, batch, BatchStep(c, r, batch).value)
    decreases |batch|
  {
    hide Framed, PairwiseIndependent, Identified;
    if batch == [] {
      assert r.out.transactions + [] == r.out.transactions;
    } else {
      var n := |batch| - 1;
      var front, last := batch[..n], batch[n];
      assert batch == front + [last];
      UnitsOfLast(c.execute, OutcomeOf(r), front, last);
      FrontOf(batch);
      SerialAsBatch(c, r, front);
      ResultsAt(c, r.state, r.processed, front);
      var results := Results(c, r.state, r.processed, front).value;
      FrontIsInvisible(c, r, batch, results);
      ExtendBatch(c, r, front, results, last);
    }
  }

  lemma ExtendBatch(c: Config, r: Run, front: seq<Tx>, results: seq<Execution>, last: Tx)
    requires Results(c, r.state, r.processed, front) == Some(results) && |results| == |front|
    requires AppliedAll(c, r, front, results).Some?
    requires var s := AppliedAll(c, r, front, results).value;
             && DoneSerially(c, r, front, s)
             && c.execute(last, s.state, s.processed) == c.execute(last, r.state, r.processed)
    requires OneByOne(c.execute, OutcomeOf(r), front + [last]).Some? && HasRoom(c, r, front + [last])
    ensures BatchStep(c, r, front + [last]).Some?
    ensures DoneSerially(c, r, front + [last], BatchStep(c, r, front + [last]).value)
  {
    hide UnitsOf;
    var s, batch := AppliedAll(c, r, front, results).value, front + [last];
    UnitsOfLast(c.execute, OutcomeOf(r), front, last);
    assert batch[..|front|] == front;
    var e := c.execute(last, r.state, r.processed).value;
    assert (results + [e])[..|front|] == results;
    assert Results(c, r.state, r.processed, batch) == Some(results + [e]);
    assert AppliedAll(c, r, batch, results + [e]) == Applied(c, s, last, e);
    assert r.out.transactions + front + [last] == r.out.transactions + batch;
  }

  lemma {:induction false} OneByOneFront(execute: Executor, o: Outcome, xs: seq<Tx>, ys: seq<Tx>)
    requires OneByOne(execute, o, xs + ys).Some?
    ensures OneByOne(execute, o, xs).Some?
  {
    if ys == [] {
      assert xs + ys == xs;
    } else {
      assert (xs + ys)[..|xs + ys| - 1] == xs + ys[..|ys| - 1];
      OneByOneFront(execute, o, xs, ys[..|ys| - 1]);
    }
  }

  /** A list that keeps its order and can be executed one by one gets through the verifier, to the same effect. */
  lemma {:induction false} VerifierGetsThrough(c: Config, txs: seq<Tx>, r: Run)
    requires Framed(c.execute) && Identified(txs) && KeepsOrder(txs)
    requires |r.out.transactions| + |txs| == c.maxIncluded
    requires OneByOne(c.execute, OutcomeOf(r), txs).Some? && HasRoom(c, r, txs)
    ensures var v := Parallel(c, txs, r); v.Some? && v.value.1 == [] && DoneSerially(c, r, txs, v.value.0)
    decreases |txs|
  {
    hide Framed, Identified, Select, BatchStep, OneByOne, UnitsOf, Blocked, AllLockable;
    if txs == [] {
      NothingPending(c, r);
      NothingDone(c, r);
    } else {
      var k := FrontRun(txs, UNLOCKED);
      var batch, rest := txs[..k], txs[k..];
      assert txs == batch + rest;
      SelectsFront(txs, |txs|, UNLOCKED);
      SelectedIndependent(txs, |txs|, UNLOCKED);
      PartIdentified(txs, batch);
      PartIdentified(txs, rest);
      SplitRoom(c, r, batch, rest);
      SerialAsBatch(c, r, batch);
      var next := BatchStep(c, r, batch).value;
      ParallelRound(c, txs, r, batch, rest);
      RoomAfter(c, r, batch, rest, next);
      VerifierGetsThrough(c, rest, next);
      DoneAfter(c, r, batch, rest, next, Parallel(c, rest, next).value.0);
    }
  }

  lemma NothingDone(c: Config, r: Run)
    ensures DoneSerially(c, r, [], r)
  {
    assert r.out.transactions + [] == r.out.transactions;
  }

  lemma SplitRoom(c: Config, r: Run, batch: seq<Tx>, rest: seq<Tx>)
    requires OneByOne(c.execute, OutcomeOf(r), batch + rest).Some? && HasRoom(c, r, batch + rest)
    ensures OneByOne(c.execute, OutcomeOf(r), batch).Some? && HasRoom(c, r, batch)
  {
    hide OneByOne, UnitsOf;
    OneByOneFront(c.execute, OutcomeOf(r), batch, rest);
    UnitsThen(c.execute, OutcomeOf(r), batch, rest);
  }

  lemma RoomAfter(c: Config, r: Run, batch: seq<Tx>, rest: seq<Tx>, next: Run)
    requires DoneSerially(c, r, batch, next)
    requires OneByOne(c.execute, OutcomeOf(r), batch + rest).Some? && HasRoom(c, r, batch + rest)
    ensures OneByOne(c.execute, OutcomeOf(next), rest).Some? && HasRoom(c, next, rest)
  {
    hide OneByOne, UnitsOf;
    OneByOneThen(c.execute, OutcomeOf(r), batch, rest);
    UnitsThen(c.execute, OutcomeOf(r), batch, rest);
  }

  lemma DoneAfter(c: Config, r: Run, batch: seq<Tx>, rest: seq<Tx>, next: Run, s: Run)
    requires DoneSerially(c, r, batch, next) && DoneSerially(c, next, rest, s)
    ensures DoneSerially(c, r, batch + rest, s)
  {
    hide OneByOne, UnitsOf;
    OneByOneThen(c.execute, OutcomeOf(r), batch, rest);
    UnitsThen(c.execute, OutcomeOf(r), batch, rest);
    assert r.out.transactions + batch + rest == r.out.transactions + (batch + rest);
  }

  /** Producer and verifier after any run, rejections or not. A verifier that gets through includes the batches of
      the published list; it gets through in the published order exactly when that list keeps its order, which the
      declared accounts decide; and then its accounts, processed ids, receipts and fees are the producer's. */
  lemma VerifierAgreesExactlyWhen(c: Config, transactions: seq<Tx>, state: Accounts, processed: set<TxId>)
    requires Framed(c.execute) && Identified(transactions)
    requires Parallel(c, transactions, Run(state, processed, EMPTY_OUTPUT)).Some?
    ensures var start := Run(state, processed, EMPTY_OUTPUT);
            var produced := Parallel(c, transactions, start).value.0;
            var published := produced.out.transactions;
            var strict := c.(maxIncluded := |published|, rejectFailed := true);
            var verifier := Parallel(strict, published, start);
            && (verifier.Some? ==>
                  && Batches(published, |published|).Some?
                  && verifier.value.0.out.transactions == Flatten(Batches(published, |published|).value))
            && (verifier.Some? && verifier.value.0.out.transactions == published <==> KeepsOrder(published))
            && (KeepsOrder(published) ==> OutcomeOf(verifier.value.0) == OutcomeOf(produced) && verifier.value.1 == [])
  {
    hide Framed, Identified, Parallel, OneByOne, UnitsOf, KeepsOrder, Batches, Flatten;
    var start := Run(state, processed, EMPTY_OUTPUT);
    var produced := Parallel(c, transactions, start).value.0;
    var published := produced.out.transactions;
    var strict := c.(maxIncluded := |published|, rejectFailed := true);
    OrderKeptExactlyWhen(published);
    if Parallel(strict, published, start).Some? {
      StrictIncludes(strict, published, start);
      var batches := Batches(published, |published|).value;
      assert [] + Flatten(batches) == Flatten(batches);
    }
    if KeepsOrder(published) {
      var included, rejected := ParallelIsSerial(c, transactions, start);
      assert [] + included == included;
      PartIdentified(transactions, included);
      VerifierGetsThrough(strict, published, start);
    }
  }

  // ----- A rejection can change the outcome -----

  // The first transaction is rejected; it had kept `LATE` out of the first batch.
  const FAILS := Tx(1, {}, {8}, true, 0)
  const FIRST := Tx(2, {}, {7}, true, 0)
  const BOTH := Tx(3, {}, {7, 8}, true, 0)
  const LATE := Tx(4, {}, {8}, true, 0)

  const START := Run(map[], {}, EMPTY_OUTPUT)

  function Stamp(id: TxId): Account {
    Account(id, [], 0, false)
  }

  predicate Stamps(tx: Tx) {
    (tx.id == 3 || tx.id == 4) && 8 in tx.writable
  }

  /** Transactions 3 and 4 stamp account 8, if they declare it writable; transaction 1 fails. */
  function Stamped(tx: Tx): Execution {
    Execution(tx.id != 1, if Stamps(tx) then [Entry(8, Stamp(tx.id))] else [], 0, tx.id, Usage(1, 1))
  }

  function Stamping(rejectFailed: bool, maxIncluded: nat): Config {
    Config((tx: Tx, m: Accounts, p: set<TxId>) => Some(Stamped(tx)), Usage(9, 9), maxIncluded, rejectFailed)
  }

  /** The executor of the example keeps to the declared accounts, and its transactions are what the model asks for. */
  lemma StampingIsFramed(rejectFailed: bool, maxIncluded: nat)
    ensures Framed(Stamping(rejectFailed, maxIncluded).execute)
    ensures Identified([FAILS, FIRST, BOTH, LATE])
  {
    var execute := Stamping(rejectFailed, maxIncluded).execute;
    forall tx ensures FramedAt(execute, tx) {
      forall m, p, e | execute(tx, m, p).Some? && e in execute(tx, m, p).value.written
        ensures e.address in tx.writable
      {
        assert e in Stamped(tx).written;
      }
    }
    assert 8 in FAILS.writable && 7 in FIRST.writable && 7 in BOTH.writable && 8 in LATE.writable;
  }

  lemma SingleStep(c: Config, r: Run, t: Tx, e: Execution)
    requires c.execute(t, r.state, r.processed) == Some(e)
    ensures Results(c, r.state, r.processed, [t]) == Some([e])
    ensures AppliedAll(c, r, [t], [e]) == Applied(c, r, t, e)
    ensures BatchStep(c, r, [t]) == Applied(c, r, t, e)
  {
    assert [t][..0] == [] && [e][..0] == [] && [] + [e] == [e];
  }

  lemma PairStep(c: Config, r: Run, t: Tx, u: Tx, e: Execution, f: Execution)
    requires c.execute(t, r.state, r.processed) == Some(e) && c.execute(u, r.state, r.processed) == Some(f)
    ensures BatchStep(c, r, [t, u]) ==
            var first := Applied(c, r, t, e); if first.None? then None else Applied(c, first.value, u, f)
  {
    SingleStep(c, r, t, e);
    assert [t, u][..1] == [t] && [e, f][..1] == [e] && [e] + [f] == [e, f];
    assert Results(c, r.state, r.processed, [t, u]) == Some([e, f]);
  }

  /** With a rejected transaction producer and verifier can part, in receipts and in accounts: the rejected one had
      kept back a later transaction that the verifier, who never sees it, executes before a conflicting one. The
      executor keeps to the declared accounts. */
  lemma RejectionReorders()
    ensures var producer := Parallel(Stamping(false, 4), [FAILS, FIRST, BOTH, LATE], START);
            && producer.Some? && producer.value.0.out.transactions == [FIRST, BOTH, LATE]
            && producer.value.0.out.rejected == [FAILS] && producer.value.0.out.receipts == [2, 3, 4]
            && producer.value.0.state == map[8 := Stamp(4)]
    ensures var verifier := Parallel(Stamping(true, 3), [FIRST, BOTH, LATE], START);
            && verifier.Some? && verifier.value.0.out.transactions == [FIRST, LATE, BOTH]
            && verifier.value.0.out.receipts == [2, 4, 3]
            && verifier.value.0.state == map[8 := Stamp(3)]
    ensures !KeepsOrder([FIRST, BOTH, LATE])
    ensures Framed(Stamping(false, 4).execute) && Framed(Stamping(true, 3).execute)
    ensures Identified([FAILS, FIRST, BOTH, LATE])
  {
    hide Framed, Identified;
    StampingIsFramed(false, 4);
    StampingIsFramed(true, 3);
    ProducerRuns();
    VerifierRuns();
    VerifierReorders();
  }

  lemma VerifierReorders()
    ensures !KeepsOrder([FIRST, BOTH, LATE])
  {
    hide Parallel, Batches, Flatten, KeepsOrder;
    var published := [FIRST, BOTH, LATE];
    VerifierRuns();
    StrictIncludes(Stamping(true, 3), published, START);
    var batches := Batches(published, 3).value;
    assert [] + Flatten(batches) == Flatten(batches);
    assert V2.out.transactions[1] != published[1];
    OrderKeptExactlyWhen(published);
  }

  lemma SelectFirst(first: Tx, tail: seq<Tx>, capacity: nat, l: Locks)
    requires first.lockable && capacity > 0
    ensures Compatible(l, first) ==>
              var r := Select(tail, capacity - 1, Locked(l, first));
              Select([first] + tail, capacity, l) == if r.None? then None else Some(([first] + r.value.0, r.value.1))
    ensures !Compatible(l, first) ==>
              var r := Select(tail, capacity, l);
              Select([first] + tail, capacity, l) == if r.None? then None else Some((r.value.0, [first] + r.value.1))
  {
    assert ([first] + tail)[1..] == tail;
  }

  /** A transaction followed only by ones it excludes is a batch of its own. */
  lemma SelectAlone(first: Tx, rest: seq<Tx>, capacity: nat)
    requires first.lockable && capacity > 0 && Blocked(Locked(UNLOCKED, first), rest)
    ensures Select([first] + rest, capacity, UNLOCKED) == Some(([first], rest))
  {
    BlockedIsPassedOver(rest, capacity - 1, Locked(UNLOCKED, first));
    SelectFirst(first, rest, capacity, UNLOCKED);
    assert [first] + [] == [first];
  }

  lemma NothingPending(c: Config, r: Run)
    ensures Parallel(c, [], r) == Some((r, []))
  {
  }

  lemma ProducerSelects()
    ensures Select([FAILS, FIRST, BOTH, LATE], 4, UNLOCKED) == Some(([FAILS, FIRST], [BOTH, LATE]))
    ensures Select([BOTH, LATE], 3, UNLOCKED) == Some(([BOTH], [LATE]))
    ensures Select([LATE], 2, UNLOCKED) == Some(([LATE], []))
  {
    var one, two := Locked(UNLOCKED, FAILS), Locked(Locked(UNLOCKED, FAILS), FIRST);
    assert 8 in two.writers && !Compatible(two, BOTH) && !Compatible(two, LATE);
    BlockedIsPassedOver([BOTH, LATE], 2, two);
    SelectFirst(FIRST, [BOTH, LATE], 3, one);
    SelectFirst(FAILS, [FIRST, BOTH, LATE], 4, UNLOCKED);
    assert [FAILS, FIRST, BOTH, LATE] == [FAILS] + [FIRST, BOTH, LATE];
    assert [FIRST, BOTH, LATE] == [FIRST] + [BOTH, LATE] && [FAILS, FIRST] == [FAILS] + ([FIRST] + []);
    assert 8 in Locked(UNLOCKED, BOTH).writers && !Compatible(Locked(UNLOCKED, BOTH), LATE);
    SelectAlone(BOTH, [LATE], 3);
    SelectAlone(LATE, [], 2);
    assert [BOTH, LATE] == [BOTH] + [LATE] && [LATE] == [LATE] + [];
  }

  const P1 := Run(map[], {2}, Output([FIRST], [2], [0], [FAILS], Usage(2, 2)))
  const P2 := Run(map[8 := Stamp(3)], {2, 3}, Output([FIRST, BOTH], [2, 3], [0, 0], [FAILS], Usage(3, 3)))
  const P3 := Run(map[8 := Stamp(4)], {2, 3, 4}, Output([FIRST, BOTH, LATE], [2, 3, 4], [0, 0, 0], [FAILS], Usage(4, 4)))

  /** Including a transaction in a run of the example. */
  function Included(r: Run, tx: Tx): Run {
    Run(
      if Stamps(tx) then r.state[8 := Stamp(tx.id)] else r.state,
      r.processed + {tx.id},
      Output(r.out.transactions + [tx], r.out.receipts + [tx.id], r.out.fees + [0], r.out.rejected, Plus(r.out.units, Usage(1, 1))))
  }

  lemma AppliedIncludes(c: Config, r: Run, tx: Tx)
    requires tx.id != 1 && AtMost(Plus(r.out.units, Usage(1, 1)), c.limit)
    ensures Applied(c, r, tx, Stamped(tx)) == Some(Included(r, tx))
  {
    hide WrittenAll, Plus, AtMost;
    StampWrites(r.state, tx);
  }

  lemma AppliedRefuses(c: Config, r: Run, tx: Tx)
    requires tx.id == 1 && AtMost(Plus(r.out.units, Usage(1, 1)), c.limit) && !c.rejectFailed
    ensures Applied(c, r, tx, Stamped(tx)) ==
            Some(r.(out := r.out.(rejected := r.out.rejected + [tx], units := Plus(r.out.units, Usage(1, 1)))))
  {
    hide WrittenAll, Plus, AtMost;
  }

  lemma StampWrites(m: Accounts, tx: Tx)
    ensures WrittenAll(m, Stamped(tx).written) == if Stamps(tx) then m[8 := Stamp(tx.id)] else m
  {
    var writes := Stamped(tx).written;
    assert writes != [] ==> WrittenAll(m, writes[..0]) == m;
  }

  lemma ProducerFirst()
    ensures BatchStep(Stamping(false, 4), START, [FAILS, FIRST]) == Some(P1)
  {
    hide BatchStep, Applied;
    var c := Stamping(false, 4);
    var refused := Run(map[], {}, Output([], [], [], [FAILS], Usage(1, 1)));
    PairStep(c, START, FAILS, FIRST, Stamped(FAILS), Stamped(FIRST));
    AppliedRefuses(c, START, FAILS);
    assert [] + [FAILS] == [FAILS];
    AppliedIncludes(c, refused, FIRST);
    assert [] + [FIRST] == [FIRST] && [] + [2] == [2] && [] + [0] == [0] && {} + {2} == {2};
  }

  lemma ProducerSecond()
    ensures BatchStep(Stamping(false, 4), P1, [BOTH]) == Some(P2)
  {
    hide BatchStep, Applied;
    SingleStep(Stamping(false, 4), P1, BOTH, Stamped(BOTH));
    AppliedIncludes(Stamping(false, 4), P1, BOTH);
    assert [FIRST] + [BOTH] == [FIRST, BOTH] && [2] + [3] == [2, 3] && [0] + [0] == [0, 0] && {2} + {3} == {2, 3};
  }

  lemma ProducerThird()
    ensures BatchStep(Stamping(false, 4), P2, [LATE]) == Some(P3)
  {
    hide BatchStep, Applied;
    SingleStep(Stamping(false, 4), P2, LATE, Stamped(LATE));
    AppliedIncludes(Stamping(false, 4), P2, LATE);
    assert [FIRST, BOTH] + [LATE] == [FIRST, BOTH, LATE] && [2, 3] + [4] == [2, 3, 4];
    assert [0, 0] + [0] == [0, 0, 0] && {2, 3} + {4} == {2, 3, 4};
    assert P2.state[8 := Stamp(4)] == map[8 := Stamp(4)];
  }

  lemma ProducerRuns()
    ensures Parallel(Stamping(false, 4), [FAILS, FIRST, BOTH, LATE], START) == Some((P3, []))
  {
    hide Parallel, BatchStep, Select;
    var c := Stamping(false, 4);
    ProducerSelects();
    ProducerFirst();
    ProducerSecond();
    ProducerThird();
    ParallelRound(c, [FAILS, FIRST, BOTH, LATE], START, [FAILS, FIRST], [BOTH, LATE]);
    ParallelRound(c, [BOTH, LATE], P1, [BOTH], [LATE]);
    ParallelRound(c, [LATE], P2, [LATE], []);
    NothingPending(c, P3);
  }

  lemma VerifierSelects()
    ensures Select([FIRST, BOTH, LATE], 3, UNLOCKED) == Some(([FIRST, LATE], [BOTH]))
    ensures Select([BOTH], 1, UNLOCKED) == Some(([BOTH], []))
  {
    var one := Locked(UNLOCKED, FIRST);
    assert 7 in one.writers && !Compatible(one, BOTH);
    SelectFirst(LATE, [], 2, one);
    SelectFirst(BOTH, [LATE], 2, one);
    SelectFirst(FIRST, [BOTH, LATE], 3, UNLOCKED);
    assert [FIRST, BOTH, LATE] == [FIRST] + [BOTH, LATE] && [BOTH, LATE] == [BOTH] + [LATE] && [LATE] == [LATE] + [];
    assert [FIRST, LATE] == [FIRST] + ([LATE] + []) && [BOTH] == [BOTH] + [];
    SelectAlone(BOTH, [], 1);
  }

  const V1 := Run(map[8 := Stamp(4)], {2, 4}, Output([FIRST, LATE], [2, 4], [0, 0], [], Usage(2, 2)))
  const V2 := Run(map[8 := Stamp(3)], {2, 3, 4}, Output([FIRST, LATE, BOTH], [2, 4, 3], [0, 0, 0], [], Usage(3, 3)))

  lemma VerifierFirst()
    ensures BatchStep(Stamping(true, 3), START, [FIRST, LATE]) == Some(V1)
  {
    hide BatchStep, Applied;
    var c := Stamping(true, 3);
    PairStep(c, START, FIRST, LATE, Stamped(FIRST), Stamped(LATE));
    AppliedIncludes(c, START, FIRST);
    AppliedIncludes(c, Included(START, FIRST), LATE);
    assert [] + [FIRST] + [LATE] == [FIRST, LATE] && [] + [2] + [4] == [2, 4] && [] + [0] + [0] == [0, 0];
    assert {} + {2} + {4} == {2, 4};
  }

  lemma VerifierSecond()
    ensures BatchStep(Stamping(true, 3), V1, [BOTH]) == Some(V2)
  {
    hide BatchStep, Applied;
    SingleStep(Stamping(true, 3), V1, BOTH, Stamped(BOTH));
    AppliedIncludes(Stamping(true, 3), V1, BOTH);
    assert [FIRST, LATE] + [BOTH] == [FIRST, LATE, BOTH] && [2, 4] + [3] == [2, 4, 3] && [0, 0] + [0] == [0, 0, 0];
    assert {2, 4} + {3} == {2, 3, 4};
    assert V1.state[8 := Stamp(3)] == map[8 := Stamp(3)];
  }

  lemma VerifierRuns()
    ensures Parallel(Stamping(true, 3), [FIRST, BOTH, LATE], START) == Some((V2, []))
  {
    hide Parallel, BatchStep, Select;
    var c := Stamping(true, 3);
    VerifierSelects();
    VerifierFirst();
    VerifierSecond();
    ParallelRound(c, [FIRST, BOTH, LATE], START, [FIRST, LATE], [BOTH]);
    ParallelRound(c, [BOTH], V1, [BOTH], []);
    NothingPending(c, V2);
  }
}
