/** Parallel block execution by account locks, and its equivalence to serial execution. */
module ParallelExecution {

  import opened Wrappers
  import opened ChainState

  type TxId = nat

  /** A transaction by what the scheduler sees of it; `lockable` is false when its accounts do not resolve. */
  datatype Tx = Tx(id: TxId, readable: set<Address>, writable: set<Address>, lockable: bool, body: nat)

  /** Compute and cost units. */
  datatype Usage = Usage(compute: nat, cost: nat)

  const UNUSED := Usage(0, 0)

  function Plus(u: Usage, v: Usage): Usage {
    Usage(u.compute + v.compute, u.cost + v.cost)
  }

  predicate AtMost(u: Usage, v: Usage) {
    u.compute <= v.compute && u.cost <= v.cost
  }

  datatype Execution = Execution(confirmed: bool, written: seq<Entry>, fee: nat, receipt: nat, units: Usage)

  type Executor = (Tx, Accounts, set<TxId>) -> Option<Execution>

  /** The executor, the block's resource limit and the flags of one call. */
  datatype Config = Config(
    execute: Executor,
    limit: Usage,
    maxIncluded: nat,
    rejectFailed: bool)

  ghost predicate Agree(tx: Tx, m: Accounts, n: Accounts) {
    forall a :: a in tx.readable + tx.writable ==> SameAt(m, n, a)
  }

  /** Executing `tx` reads only its declared accounts and, of the processed ids, its own; it writes only
      what the transaction declares writable. */
  ghost predicate FramedAt(execute: Executor, tx: Tx) {
    && (forall m, n, p, q ::
          Agree(tx, m, n) && (tx.id in p <==> tx.id in q) ==> execute(tx, m, p) == execute(tx, n, q))
    && (forall m, p, e ::
          execute(tx, m, p).Some? && e in execute(tx, m, p).value.written ==> e.address in tx.writable)
  }

  ghost predicate Framed(execute: Executor) {
    forall tx :: FramedAt(execute, tx)
  }

  /** Every transaction writes something (its fee payer), and equal ids mean equal account lists. */
  ghost predicate Identified(txs: seq<Tx>) {
    && (forall i :: 0 <= i < |txs| ==> txs[i].writable != {})
    && (forall i, j :: 0 <= i < j < |txs| && txs[i].id == txs[j].id ==> txs[i].writable == txs[j].writable)
  }

  // ----- Locks -----

  datatype Locks = Locks(readers: set<Address>, writers: set<Address>)

  const UNLOCKED := Locks({}, {})

  /** Writers exclude everybody; readers share. */
  predicate Compatible(l: Locks, tx: Tx) {
    tx.writable !! l.writers && tx.writable !! l.readers && tx.readable !! l.writers
  }

  function Locked(l: Locks, tx: Tx): Locks {
    Locks(l.readers + tx.readable, l.writers + tx.writable)
  }

  class AccountLockSet {
    var readLocks: map<Address, nat>
    var writeLocks: set<Address>

    function Abstract(): Locks
      reads this
    {
      Locks((set a | a in readLocks && readLocks[a] > 0), writeLocks)
    }

    constructor ()
      ensures Abstract() == UNLOCKED
    {
      readLocks, writeLocks := map[], {};
    }

    /** All locks or none: a failed try leaves the set as it was. */
    method TryLock(tx: Tx) returns (locked: bool)
      modifies this
      ensures locked == Compatible(old(Abstract()), tx)
      ensures Abstract() == if locked then Locked(old(Abstract()), tx) else old(Abstract())
    {
      if exists a :: a in tx.writable && (a in writeLocks || (a in readLocks && readLocks[a] > 0)) {
        return false;
      }
      if exists a :: a in tx.readable && a in writeLocks {
        return false;
      }
      writeLocks := writeLocks + tx.writable;
      readLocks := map a | a in readLocks.Keys + tx.readable ::
        (if a in readLocks then readLocks[a] else 0) + (if a in tx.readable then 1 else 0);
      return true;
    }
  }

  // ----- Selecting a batch -----

  /** The greedy selection: take what is compatible with everything taken so far, up to the capacity. */
  function Select(pending: seq<Tx>, capacity: nat, l: Locks): Option<(seq<Tx>, seq<Tx>)> {
    if pending == [] then Some(([], []))
    else if capacity == 0 then Some(([], pending))
    else if !pending[0].lockable then None
    else if Compatible(l, pending[0]) then
      var r := Select(pending[1..], capacity - 1, Locked(l, pending[0]));
      if r.None? then None else Some(([pending[0]] + r.value.0, r.value.1))
    else
      var r := Select(pending[1..], capacity, l);
      if r.None? then None else Some((r.value.0, [pending[0]] + r.value.1))
  }

  method SelectBatch(pending: seq<Tx>, capacity: nat) returns (r: Option<(seq<Tx>, seq<Tx>)>)
    ensures r == Select(pending, capacity, UNLOCKED)
  {
    var locks := new AccountLockSet();
    var batch: seq<Tx> := [];
    var remaining: seq<Tx> := [];
    SelectFrom(pending, capacity, UNLOCKED);
    for i := 0 to |pending|
      invariant |batch| <= capacity
      invariant var rest := Select(pending[i..], capacity - |batch|, locks.Abstract());
                Select(pending, capacity, UNLOCKED) ==
                if rest.None? then None else Some((batch + rest.value.0, remaining + rest.value.1))
    {
      var tx := pending[i];
      assert pending[i..][1..] == pending[i + 1..];
      if |batch| >= capacity {
        SelectFull(pending[i + 1..], locks.Abstract());
        assert remaining + ([tx] + pending[i + 1..]) == (remaining + [tx]) + pending[i + 1..];
        assert pending[i..] == [tx] + pending[i + 1..];
        remaining := remaining + [tx];
        continue;
      }
      if !tx.lockable {
        return None;
      }
      var locked := locks.TryLock(tx);
      ghost var rest := Select(pending[i + 1..], capacity - |batch| - (if locked then 1 else 0), locks.Abstract());
      if !locked {
        if rest.Some? {
          assert remaining + ([tx] + rest.value.1) == (remaining + [tx]) + rest.value.1;
        }
        remaining := remaining + [tx];
        continue;
      }
      if rest.Some? {
        assert batch + ([tx] + rest.value.0) == (batch + [tx]) + rest.value.0;
      }
      batch := batch + [tx];
    }
    assert pending[|pending|..] == [];
    assert batch + [] == batch && remaining + [] == remaining;
    return Some((batch, remaining));
  }

  lemma SelectFrom(pending: seq<Tx>, capacity: nat, l: Locks)
    ensures var rest := Select(pending[0..], capacity, l);
            Select(pending, capacity, l) == if rest.None? then None else Some(([] + rest.value.0, [] + rest.value.1))
  {
    var rest := Select(pending, capacity, l);
    assert pending[0..] == pending;
    if rest.Some? {
      assert [] + rest.value.0 == rest.value.0 && [] + rest.value.1 == rest.value.1;
    }
  }

  lemma SelectFull(pending: seq<Tx>, l: Locks)
    ensures Select(pending, 0, l) == Some(([], pending))
  {
  }

  // ----- Executing and applying a batch -----

  datatype Output = Output(transactions: seq<Tx>, receipts: seq<nat>, fees: seq<nat>, rejected: seq<Tx>, units: Usage)

  datatype Run = Run(state: Accounts, processed: set<TxId>, out: Output)

  const EMPTY_OUTPUT := Output([], [], [], [], UNUSED)

  /** Every member of a batch is executed against the state before the batch. */
  function Results(c: Config, state: Accounts, processed: set<TxId>, batch: seq<Tx>): Option<seq<Execution>> {
    if batch == [] then Some([])
    else
      var last := batch[|batch| - 1];
      var front := Results(c, state, processed, batch[..|batch| - 1]);
      var e := c.execute(last, state, processed);
      if front.None? || e.None? then None else Some(front.value + [e.value])
  }

  lemma {:induction false} ResultsAt(c: Config, state: Accounts, processed: set<TxId>, batch: seq<Tx>)
    ensures var r := Results(c, state, processed, batch);
            && (r.Some? <==> forall i :: 0 <= i < |batch| ==> c.execute(batch[i], state, processed).Some?)
            && (r.Some? ==> |r.value| == |batch| && forall i :: 0 <= i < |batch| ==>
                  c.execute(batch[i], state, processed) == Some(r.value[i]))
  {
    if batch != [] {
      ResultsAt(c, state, processed, batch[..|batch| - 1]);
    }
  }

  ghost predicate Reached(order: seq<nat>, i: nat) {
    exists k :: 0 <= k < |order| && order[k] == i
  }

  /** The order in which workers happen to finish: every place of the batch, once. */
  ghost predicate IsSchedule(order: seq<nat>, n: nat) {
    && |order| == n
    && (forall i :: 0 <= i < n ==> order[i] < n)
    && (forall i: nat :: i < n ==> Reached(order, i))
  }

  /** Workers fill the result slots in any order; the outcome does not depend on it. */
  method ExecuteBatch(c: Config, state: Accounts, processed: set<TxId>, batch: seq<Tx>, order: seq<nat>)
    returns (r: Option<seq<Execution>>)
    requires IsSchedule(order, |batch|)
    ensures r == Results(c, state, processed, batch)
  {
    ResultsAt(c, state, processed, batch);
    var slots: array<Option<Execution>> := new Option<Execution>[|batch|](i => None);
    var failed := false;
    for n := 0 to |order|
      invariant forall k :: 0 <= k < n ==>
                  slots[order[k]] == c.execute(batch[order[k]], state, processed)
      invariant failed <==> exists k :: 0 <= k < n && slots[order[k]].None?
    {
      var i := order[n];
      ghost var before := slots[..];
      slots[i] := c.execute(batch[i], state, processed);
      assert forall k :: 0 <= k < n ==> slots[order[k]] == before[order[k]];
      if slots[i].None? {
        failed := true;
      }
    }
    forall i | 0 <= i < |batch| ensures slots[i] == c.execute(batch[i], state, processed) {
      assert Reached(order, i);
    }
    if failed {
      return None;
    }
    forall i | 0 <= i < |batch| ensures slots[i].Some? {
      assert Reached(order, i);
    }
    r := Some([]);
    for i := 0 to |batch|
      invariant r.Some? && |r.value| == i
      invariant forall k :: 0 <= k < i ==> slots[k] == Some(r.value[k])
    {
      r := Some(r.value + [slots[i].value]);
    }
    assert r.value == Results(c, state, processed, batch).value;
  }

  /** Adding what an execution used; every executed transaction counts, and the block limit may not be passed. */
  function Metered(limit: Usage, used: Usage, e: Execution): Option<Usage> {
    if AtMost(Plus(used, e.units), limit) then Some(Plus(used, e.units)) else None
  }

  /** The effect of one result: a confirmed transaction is written and recorded, a failed one is only
      listed, or fails the whole call. */
  function Applied(c: Config, r: Run, tx: Tx, e: Execution): Option<Run> {
    var units := Metered(c.limit, r.out.units, e);
    if units.None? then None
    else if !e.confirmed then
      if c.rejectFailed then None
      else Some(r.(out := r.out.(rejected := r.out.rejected + [tx], units := units.value)))
    else
      Some(Run(
             WrittenAll(r.state, e.written),
             r.processed + {tx.id},
             Output(r.out.transactions + [tx], r.out.receipts + [e.receipt], r.out.fees + [e.fee], r.out.rejected, units.value)))
  }

  function AppliedAll(c: Config, r: Run, batch: seq<Tx>, results: seq<Execution>): Option<Run>
    requires |batch| == |results|
  {
    if batch == [] then Some(r)
    else
      var n := |batch| - 1;
      var front := AppliedAll(c, r, batch[..n], results[..n]);
      if front.None? then None else Applied(c, front.value, batch[n], results[n])
  }

  function BatchStep(c: Config, r: Run, batch: seq<Tx>): Option<Run> {
    var results := Results(c, r.state, r.processed, batch);
    if results.None? then None
    else
      assert |results.value| == |batch| by { ResultsAt(c, r.state, r.processed, batch); }
      AppliedAll(c, r, batch, results.value)
  }

  /** One round: select a batch, execute it, apply its results; the new run and what is still pending. */
  function Round(c: Config, pending: seq<Tx>, r: Run): (next: Option<(Run, seq<Tx>)>)
    requires |r.out.transactions| < c.maxIncluded
    ensures next.Some? ==> |next.value.1| < |pending|
  {
    var selected := Select(pending, c.maxIncluded - |r.out.transactions|, UNLOCKED);
    if selected.None? || selected.value.0 == [] then None
    else
      SelectPartitions(pending, c.maxIncluded - |r.out.transactions|, UNLOCKED);
      var after := BatchStep(c, r, selected.value.0);
      if after.None? then None else Some((after.value, selected.value.1))
  }

  /** The whole call: rounds until nothing is pending or the block is full. */
  function Parallel(c: Config, pending: seq<Tx>, r: Run): Option<(Run, seq<Tx>)>
    decreases |pending|
  {
    if pending == [] || |r.out.transactions| >= c.maxIncluded then Some((r, pending))
    else
      var next := Round(c, pending, r);
      if next.None? then None else Parallel(c, next.value.1, next.value.0)
  }

  /** A selection loses nothing: batch and rest together are what was pending. */
  lemma {:induction false} SelectPartitions(pending: seq<Tx>, capacity: nat, l: Locks)
    requires Select(pending, capacity, l).Some?
    ensures var (batch, rest) := Select(pending, capacity, l).value;
            && |batch| + |rest| == |pending|
            && multiset(batch) + multiset(rest) == multiset(pending)
            && |batch| <= capacity
  {
    if pending != [] && capacity > 0 {
      assert pending == [pending[0]] + pending[1..];
      if Compatible(l, pending[0]) {
        SelectPartitions(pending[1..], capacity - 1, Locked(l, pending[0]));
      } else {
        SelectPartitions(pending[1..], capacity, l);
      }
    }
  }

  /** With nothing locked the first pending transaction always gets its locks, so a batch is never empty. */
  lemma BatchNeverEmpty(pending: seq<Tx>, capacity: nat)
    requires pending != [] && capacity > 0 && Select(pending, capacity, UNLOCKED).Some?
    ensures Select(pending, capacity, UNLOCKED).value.0 != []
  {
    assert Compatible(UNLOCKED, pending[0]);
  }

  /** The loop over batches, on account lists; its state is the list form of the specified run. */
  method ExecuteParallel(c: Config, transactions: seq<Tx>, state: seq<Entry>, processed: set<TxId>)
    returns (r: Option<(seq<Entry>, Output)>)
    ensures var spec := Parallel(c, transactions, Run(AsMap(state), processed, EMPTY_OUTPUT));
            && (r.Some? <==> spec.Some?)
            && (r.Some? ==>
                  && (Unique(state) ==> Unique(r.value.0)) && AsMap(r.value.0) == spec.value.0.state
                  && r.value.1 == spec.value.0.out)
  {
    hide BatchStep, Select, AsMap;
    var next := state;
    var pending := transactions;
    var ids := processed;
    var out := EMPTY_OUTPUT;
    while |pending| > 0 && |out.transactions| < c.maxIncluded
      invariant Unique(state) ==> Unique(next)
      invariant Parallel(c, transactions, Run(AsMap(state), processed, EMPTY_OUTPUT)) ==
                Parallel(c, pending, Run(AsMap(next), ids, out))
      decreases |pending|
    {
      var selected := SelectBatch(pending, c.maxIncluded - |out.transactions|);
      if selected.None? {
        return None;
      }
      var (batch, rest) := selected.value;
      if |batch| == 0 {
        return None;
      }
      SelectPartitions(pending, c.maxIncluded - |out.transactions|, UNLOCKED);
      var applied := RunBatch(c, next, ids, out, batch);
      if applied.None? {
        return None;
      }
      next, ids, out := applied.value.0, applied.value.1, applied.value.2;
      pending := rest;
    }
    return Some((next, out));
  }

  method RunBatch(c: Config, state: seq<Entry>, processed: set<TxId>, out: Output, batch: seq<Tx>)
    returns (r: Option<(seq<Entry>, set<TxId>, Output)>)
    ensures var spec := BatchStep(c, Run(AsMap(state), processed, out), batch);
            && (r.Some? <==> spec.Some?)
            && (r.Some? ==> (Unique(state) ==> Unique(r.value.0)) && spec.value == Run(AsMap(r.value.0), r.value.1, r.value.2))
  {
    hide WrittenAll, Metered, AsMap;
    ghost var start := Run(AsMap(state), processed, out);
    var results := ExecuteOnList(c, state, processed, batch);
    if results.None? {
      return None;
    }
    var next, ids, o := state, processed, out;
    for n := 0 to |batch|
      invariant Unique(state) ==> Unique(next)
      invariant AppliedAll(c, start, batch[..n], results.value[..n]) == Some(Run(AsMap(next), ids, o))
    {
      var tx, e := batch[n], results.value[n];
      assert batch[..n + 1][..n] == batch[..n] && results.value[..n + 1][..n] == results.value[..n];
      var units := Metered(c.limit, o.units, e);
      if units.None? {
        AppliedFails(c, start, batch, results.value, n + 1);
        return None;
      }
      if !e.confirmed {
        if c.rejectFailed {
          AppliedFails(c, start, batch, results.value, n + 1);
          return None;
        }
        o := o.(rejected := o.rejected + [tx], units := units.value);
        continue;
      }
      ids := ids + {tx.id};
      next := ApplyWrites(next, e.written);
      o := Output(o.transactions + [tx], o.receipts + [e.receipt], o.fees + [e.fee], o.rejected, units.value);
    }
    assert batch[..|batch|] == batch && results.value[..|batch|] == results.value;
    return Some((next, ids, o));
  }

  lemma {:induction false} AppliedFails(c: Config, r: Run, batch: seq<Tx>, results: seq<Execution>, n: nat)
    requires |batch| == |results| && n <= |batch|
    requires AppliedAll(c, r, batch[..n], results[..n]).None?
    ensures AppliedAll(c, r, batch, results).None?
    decreases |batch|
  {
    if n == |batch| {
      assert batch[..n] == batch && results[..n] == results;
    } else {
      var m := |batch| - 1;
      assert batch[..m][..n] == batch[..n] && results[..m][..n] == results[..n];
      AppliedFails(c, r, batch[..m], results[..m], n);
    }
  }

  /** The executor reads the list through its address map. */
  method ExecuteOnList(c: Config, state: seq<Entry>, processed: set<TxId>, batch: seq<Tx>)
    returns (r: Option<seq<Execution>>)
    ensures r == Results(c, AsMap(state), processed, batch)
    ensures r.Some? ==> |r.value| == |batch|
  {
    var accounts: Accounts := map[];
    for i := 0 to |state|
      invariant accounts == AsMap(state[..i])
    {
      assert state[..i + 1][..i] == state[..i];
      accounts := accounts[state[i].address := state[i].account];
    }
    assert state[..|state|] == state;
    var order := seq(|batch|, i => i);
    forall i: nat | i < |batch| ensures Reached(order, i) {
      assert order[i] == i;
    }
    r := ExecuteBatch(c, accounts, processed, batch, order);
    ResultsAt(c, accounts, processed, batch);
  }

  // ----- The reference: one transaction at a time -----

  datatype Outcome = Outcome(state: Accounts, processed: set<TxId>, receipts: seq<nat>, fees: seq<nat>)

  /** Executing the transactions one after another, each on the state its predecessor left; defined
      when every one of them is executed and confirmed. */
  function OneByOne(execute: Executor, o: Outcome, txs: seq<Tx>): Option<Outcome> {
    if txs == [] then Some(o)
    else
      var last := txs[|txs| - 1];
      var before := OneByOne(execute, o, txs[..|txs| - 1]);
      if before.None? then None
      else
        var e := execute(last, before.value.state, before.value.processed);
        if e.None? || !e.value.confirmed then None
        else Some(Outcome(
                    WrittenAll(before.value.state, e.value.written),
                    before.value.processed + {last.id},
                    before.value.receipts + [e.value.receipt],
                    before.value.fees + [e.value.fee]))
  }

  function UnitsAt(execute: Executor, before: Option<Outcome>, tx: Tx): Usage {
    var e := if before.None? then None else execute(tx, before.value.state, before.value.processed);
    if e.None? then UNUSED else e.value.units
  }

  /** What the transactions use when executed one after another. */
  function UnitsOf(execute: Executor, o: Outcome, txs: seq<Tx>): Usage {
    if txs == [] then UNUSED
    else
      var front, last := txs[..|txs| - 1], txs[|txs| - 1];
      Plus(UnitsOf(execute, o, front), UnitsAt(execute, OneByOne(execute, o, front), last))
  }

  lemma UnitsOfLast(execute: Executor, o: Outcome, front: seq<Tx>, last: Tx)
    ensures UnitsOf(execute, o, front + [last]) ==
            Plus(UnitsOf(execute, o, front), UnitsAt(execute, OneByOne(execute, o, front), last))
  {
    hide OneByOne, UnitsAt;
    assert (front + [last])[..|front + [last]| - 1] == front;
  }

  function OutcomeOf(r: Run): Outcome {
    Outcome(r.state, r.processed, r.out.receipts, r.out.fees)
  }

  lemma {:induction false} OneByOneThen(execute: Executor, o: Outcome, xs: seq<Tx>, ys: seq<Tx>)
    requires OneByOne(execute, o, xs).Some?
    ensures OneByOne(execute, o, xs + ys) == OneByOne(execute, OneByOne(execute, o, xs).value, ys)
  {
    if ys == [] {
      assert xs + ys == xs;
    } else {
      var n := |ys| - 1;
      assert (xs + ys)[..|xs + ys| - 1] == xs + ys[..n];
      OneByOneThen(execute, o, xs, ys[..n]);
    }
  }

  lemma NoUnits(execute: Executor, o: Outcome)
    ensures UnitsOf(execute, o, []) == UNUSED
  {
  }

  lemma {:induction false} UnitsThen(execute: Executor, o: Outcome, xs: seq<Tx>, ys: seq<Tx>)
    requires OneByOne(execute, o, xs).Some?
    ensures UnitsOf(execute, o, xs + ys) ==
            Plus(UnitsOf(execute, o, xs), UnitsOf(execute, OneByOne(execute, o, xs).value, ys))
  {
    hide OneByOne, UnitsAt, UnitsOf;
    var middle := OneByOne(execute, o, xs).value;
    if ys == [] {
      assert xs + ys == xs;
      assert UnitsOf(execute, middle, ys) == UNUSED by { NoUnits(execute, middle); }
    } else {
      var front, last := ys[..|ys| - 1], ys[|ys| - 1];
      assert xs + ys == (xs + front) + [last] && ys == front + [last];
      UnitsThen(execute, o, xs, front);
      OneByOneThen(execute, o, xs, front);
      UnitsOfLast(execute, o, xs + front, last);
      UnitsOfLast(execute, middle, front, last);
    }
  }

  // ----- A batch holds no conflict -----

  predicate Independent(first: Tx, second: Tx) {
    first.writable !! second.writable && first.writable !! second.readable && first.readable !! second.writable
  }

  ghost predicate PairwiseIndependent(batch: seq<Tx>) {
    forall i, j :: 0 <= i < j < |batch| ==> Independent(batch[i], batch[j])
  }

  /** Whatever is selected was compatible with the locks already held and with everything selected before it. */
  lemma {:induction false} SelectedIndependent(pending: seq<Tx>, capacity: nat, l: Locks)
    requires Select(pending, capacity, l).Some?
    ensures var batch := Select(pending, capacity, l).value.0;
            PairwiseIndependent(batch) && forall i :: 0 <= i < |batch| ==> Compatible(l, batch[i])
  {
    if pending != [] && capacity > 0 {
      if Compatible(l, pending[0]) {
        SelectedIndependent(pending[1..], capacity - 1, Locked(l, pending[0]));
      } else {
        SelectedIndependent(pending[1..], capacity, l);
      }
    }
  }

  /** Applying results changes only accounts some member of the batch declares writable, and marks only
      ids of the batch as processed. */
  lemma {:induction false} AppliedFrame(c: Config, r: Run, batch: seq<Tx>, results: seq<Execution>, a: Address)
    requires |batch| == |results| && AppliedAll(c, r, batch, results).Some?
    requires forall i, e :: 0 <= i < |batch| && e in results[i].written ==> e.address in batch[i].writable
    requires forall i :: 0 <= i < |batch| ==> a !in batch[i].writable
    ensures SameAt(r.state, AppliedAll(c, r, batch, results).value.state, a)
  {
    if batch != [] {
      var n := |batch| - 1;
      AppliedFrame(c, r, batch[..n], results[..n], a);
      assert results[n] == results[|batch| - 1];
      var before := AppliedAll(c, r, batch[..n], results[..n]).value;
      WritesFrame(before.state, results[n].written, a);
    }
  }

  lemma {:induction false} AppliedIds(c: Config, r: Run, batch: seq<Tx>, results: seq<Execution>, id: TxId)
    requires |batch| == |results| && AppliedAll(c, r, batch, results).Some?
    requires forall i :: 0 <= i < |batch| ==> batch[i].id != id
    ensures id in AppliedAll(c, r, batch, results).value.processed <==> id in r.processed
  {
    if batch != [] {
      var n := |batch| - 1;
      AppliedIds(c, r, batch[..n], results[..n], id);
    }
  }

  // ----- Serial equivalence -----

  /** The members of a batch whose results are confirmed (or not), in batch order. */
  function Chosen(batch: seq<Tx>, results: seq<Execution>, confirmed: bool): seq<Tx>
    requires |batch| == |results|
  {
    if batch == [] then []
    else
      var n := |batch| - 1;
      Chosen(batch[..n], results[..n], confirmed) + if results[n].confirmed == confirmed then [batch[n]] else []
  }

  lemma {:induction false} AppliedLists(c: Config, r: Run, batch: seq<Tx>, results: seq<Execution>)
    requires |batch| == |results| && AppliedAll(c, r, batch, results).Some?
    ensures var s := AppliedAll(c, r, batch, results).value;
            && s.out.transactions == r.out.transactions + Chosen(batch, results, true)
            && s.out.rejected == r.out.rejected + Chosen(batch, results, false)
  {
    if batch != [] {
      AppliedLists(c, r, batch[..|batch| - 1], results[..|batch| - 1]);
    }
  }

  lemma {:induction false} ChosenPartition(batch: seq<Tx>, results: seq<Execution>)
    requires |batch| == |results|
    ensures multiset(Chosen(batch, results, true)) + multiset(Chosen(batch, results, false)) == multiset(batch)
  {
    if batch != [] {
      var n := |batch| - 1;
      ChosenPartition(batch[..n], results[..n]);
      assert batch == batch[..n] + [batch[n]];
      ChosenLast(batch, results, true);
      ChosenLast(batch, results, false);
    }
  }

  lemma ChosenLast(batch: seq<Tx>, results: seq<Execution>, confirmed: bool)
    requires |batch| == |results| && batch != []
    ensures var n := |batch| - 1;
            multiset(Chosen(batch, results, confirmed)) ==
            multiset(Chosen(batch[..n], results[..n], confirmed)) +
            if results[n].confirmed == confirmed then multiset{batch[n]} else multiset{}
  {
    var n := |batch| - 1;
    assert Chosen(batch[..n], results[..n], confirmed) + [] == Chosen(batch[..n], results[..n], confirmed);
  }

  /** What the members before the last did is invisible to it: it is executed alike before and after them. */
  lemma FrontIsInvisible(c: Config, r: Run, batch: seq<Tx>, results: seq<Execution>)
    requires Framed(c.execute) && PairwiseIndependent(batch) && Identified(batch) && |batch| == |results| + 1
    requires Results(c, r.state, r.processed, batch[..|results|]) == Some(results)
    requires AppliedAll(c, r, batch[..|results|], results).Some?
    ensures var s, last := AppliedAll(c, r, batch[..|results|], results).value, batch[|results|];
            c.execute(last, s.state, s.processed) == c.execute(last, r.state, r.processed)
  {
    var n := |results|;
    var front, last := batch[..n], batch[n];
    var s := AppliedAll(c, r, front, results).value;
    ResultsAt(c, r.state, r.processed, front);
    forall i, e | 0 <= i < n && e in results[i].written ensures e.address in front[i].writable {
      assert FramedAt(c.execute, front[i]);
      assert c.execute(front[i], r.state, r.processed) == Some(results[i]);
    }
    assert forall i :: 0 <= i < n ==> Independent(front[i], last);
    forall a | a in last.readable + last.writable ensures SameAt(r.state, s.state, a) {
      AppliedFrame(c, r, front, results, a);
    }
    forall i | 0 <= i < n ensures front[i].id != last.id {
      assert front[i] == batch[i];
      OwnAccountsClash(front[i], last);
    }
    AppliedIds(c, r, front, results, last.id);
    assert FramedAt(c.execute, last) && Agree(last, r.state, s.state);
  }

  /** The last member of a batch is executed alike before the batch and after its predecessors. */
  lemma LastIsUndisturbed(c: Config, r: Run, batch: seq<Tx>, results: seq<Execution>)
    requires Framed(c.execute) && PairwiseIndependent(batch) && Identified(batch) && batch != []
    requires Results(c, r.state, r.processed, batch) == Some(results) && |results| == |batch|
    requires AppliedAll(c, r, batch[..|batch| - 1], results[..|batch| - 1]).Some?
    ensures var s := AppliedAll(c, r, batch[..|batch| - 1], results[..|batch| - 1]).value;
            c.execute(batch[|batch| - 1], s.state, s.processed) == Some(results[|batch| - 1])
  {
    hide Framed, PairwiseIndependent, Identified;
    FrontIsInvisible(c, r, batch, results[..|batch| - 1]);
  }

  /** Independent transactions that both write something do not write the same accounts. */
  lemma OwnAccountsClash(t: Tx, u: Tx)
    requires Independent(t, u) && t.writable != {}
    ensures t.writable != u.writable
  {
    var a :| a in t.writable;
    assert a !in u.writable;
  }

  /** The meter counts at least `units` between the runs, and keeps to the limit. */
  ghost predicate Counts(c: Config, r: Run, s: Run, units: Usage) {
    && AtMost(Plus(r.out.units, units), s.out.units)
    && (AtMost(r.out.units, c.limit) ==> AtMost(s.out.units, c.limit))
  }

  lemma {:induction false} BatchIsSerial(c: Config, r: Run, batch: seq<Tx>, results: seq<Execution>)
    requires Framed(c.execute) && PairwiseIndependent(batch) && Identified(batch)
    requires Results(c, r.state, r.processed, batch) == Some(results) && |results| == |batch|
    requires AppliedAll(c, r, batch, results).Some?
    ensures var s, chosen := AppliedAll(c, r, batch, results).value, Chosen(batch, results, true);
            && OneByOne(c.execute, OutcomeOf(r), chosen) == Some(OutcomeOf(s))
            && Counts(c, r, s, UnitsOf(c.execute, OutcomeOf(r), chosen))
    decreases |batch|
  {
    if batch != [] {
      var n := |batch| - 1;
      FrontOf(batch);
      BatchIsSerial(c, r, batch[..n], results[..n]);
      LastIsUndisturbed(c, r, batch, results);
      var chosen := Chosen(batch[..n], results[..n], true);
      if results[n].confirmed {
        OneMore(c.execute, OutcomeOf(r), chosen, batch[n], results[n]);
      } else {
        assert chosen + [] == chosen;
      }
    }
  }

  lemma FrontOf(batch: seq<Tx>)
    requires PairwiseIndependent(batch) && Identified(batch) && batch != []
    ensures PairwiseIndependent(batch[..|batch| - 1]) && Identified(batch[..|batch| - 1])
  {
    var n := |batch| - 1;
    assert forall i :: 0 <= i < n ==> batch[..n][i] == batch[i];
  }

  /** One confirmed transaction more, executed on the state reached so far. */
  lemma OneMore(execute: Executor, o: Outcome, txs: seq<Tx>, last: Tx, e: Execution)
    requires OneByOne(execute, o, txs).Some? && e.confirmed
    requires var mid := OneByOne(execute, o, txs).value; execute(last, mid.state, mid.processed) == Some(e)
    ensures var mid := OneByOne(execute, o, txs).value;
            OneByOne(execute, o, txs + [last]) ==
            Some(Outcome(WrittenAll(mid.state, e.written), mid.processed + {last.id},
                         mid.receipts + [e.receipt], mid.fees + [e.fee]))
    ensures UnitsOf(execute, o, txs + [last]) == Plus(UnitsOf(execute, o, txs), e.units)
  {
    assert (txs + [last])[..|txs + [last]| - 1] == txs;
  }

  /** One batch: what it appends to the output, run one by one, is what it did; nothing is lost. */
  lemma BatchStepIsSerial(c: Config, r: Run, batch: seq<Tx>) returns (confirmed: seq<Tx>, rejected: seq<Tx>)
    requires Framed(c.execute) && PairwiseIndependent(batch) && Identified(batch)
    requires BatchStep(c, r, batch).Some?
    ensures var s := BatchStep(c, r, batch).value;
            && s.out.transactions == r.out.transactions + confirmed
            && s.out.rejected == r.out.rejected + rejected
            && multiset(confirmed) + multiset(rejected) == multiset(batch)
            && OneByOne(c.execute, OutcomeOf(r), confirmed) == Some(OutcomeOf(s))
            && Counts(c, r, s, UnitsOf(c.execute, OutcomeOf(r), confirmed))
  {
    var results := Results(c, r.state, r.processed, batch).value;
    ResultsAt(c, r.state, r.processed, batch);
    AppliedLists(c, r, batch, results);
    ChosenPartition(batch, results);
    BatchIsSerial(c, r, batch, results);
    confirmed, rejected := Chosen(batch, results, true), Chosen(batch, results, false);
  }

  /** What going from run `r` with `pending` to run `s` with `left` did, told without batches: `included`,
      executed one at a time in output order, gives the account map, processed ids, receipts and fees;
      every pending transaction is included, rejected or left over, once; something is left over only
      when the block is full; what the included ones use is counted and within the limit. */
  ghost predicate Refines(c: Config, pending: seq<Tx>, r: Run, s: Run, left: seq<Tx>, included: seq<Tx>, rejected: seq<Tx>) {
    && s.out.transactions == r.out.transactions + included
    && s.out.rejected == r.out.rejected + rejected
    && multiset(included) + multiset(rejected) + multiset(left) == multiset(pending)
    && (left != [] ==> |s.out.transactions| >= c.maxIncluded)
    && (|r.out.transactions| <= c.maxIncluded ==> |s.out.transactions| <= c.maxIncluded)
    && OneByOne(c.execute, OutcomeOf(r), included) == Some(OutcomeOf(s))
    && Counts(c, r, s, UnitsOf(c.execute, OutcomeOf(r), included))
  }

  /** Parallel execution refines serial execution. */
  lemma {:induction false} ParallelIsSerial(c: Config, pending: seq<Tx>, r: Run)
    returns (included: seq<Tx>, rejected: seq<Tx>)
    requires Framed(c.execute) && Identified(pending)
    requires Parallel(c, pending, r).Some?
    ensures Refines(c, pending, r, Parallel(c, pending, r).value.0, Parallel(c, pending, r).value.1, included, rejected)
    decreases |pending|
  {
    if pending == [] || |r.out.transactions| >= c.maxIncluded {
      return [], [];
    }
    var batch, rest, next := FirstBatch(c, pending, r);
    var confirmed, refused := BatchStepIsSerial(c, r, batch);
    var more, moreRefused := ParallelIsSerial(c, rest, next);
    included, rejected := confirmed + more, refused + moreRefused;
    var (s, left) := Parallel(c, pending, r).value;
    RefinesAfter(c, pending, r, batch, rest, next, confirmed, refused, s, left, more, moreRefused);
  }

  lemma RefinesAfter(
    c: Config, pending: seq<Tx>, r: Run, batch: seq<Tx>, rest: seq<Tx>, next: Run, confirmed: seq<Tx>,
    refused: seq<Tx>, s: Run, left: seq<Tx>, more: seq<Tx>, moreRefused: seq<Tx>)
    requires multiset(batch) + multiset(rest) == multiset(pending) && |r.out.transactions| + |batch| <= c.maxIncluded
    requires next.out.transactions == r.out.transactions + confirmed
    requires next.out.rejected == r.out.rejected + refused
    requires multiset(confirmed) + multiset(refused) == multiset(batch)
    requires OneByOne(c.execute, OutcomeOf(r), confirmed) == Some(OutcomeOf(next))
    requires Counts(c, r, next, UnitsOf(c.execute, OutcomeOf(r), confirmed))
    requires Refines(c, rest, next, s, left, more, moreRefused)
    ensures Refines(c, pending, r, s, left, confirmed + more, refused + moreRefused)
  {
    hide OneByOne, UnitsOf;
    assert |multiset(confirmed)| <= |multiset(batch)|;
    OneByOneThen(c.execute, OutcomeOf(r), confirmed, more);
    UnitsThen(c.execute, OutcomeOf(r), confirmed, more);
    assert r.out.transactions + confirmed + more == r.out.transactions + (confirmed + more);
    assert r.out.rejected + refused + moreRefused == r.out.rejected + (refused + moreRefused);
    SplitsAdd(batch, rest, confirmed, refused, more, moreRefused, left);
  }

  lemma SplitsAdd<T>(
    batch: seq<T>, rest: seq<T>, confirmed: seq<T>, refused: seq<T>, more: seq<T>, moreRefused: seq<T>, left: seq<T>)
    requires multiset(confirmed) + multiset(refused) == multiset(batch)
    requires multiset(more) + multiset(moreRefused) + multiset(left) == multiset(rest)
    ensures multiset(confirmed + more) + multiset(refused + moreRefused) + multiset(left) == multiset(batch) + multiset(rest)
  {
  }

  /** The first round of a call that has one. */
  lemma FirstBatch(c: Config, pending: seq<Tx>, r: Run) returns (batch: seq<Tx>, rest: seq<Tx>, next: Run)
    requires Identified(pending) && Parallel(c, pending, r).Some?
    requires pending != [] && |r.out.transactions| < c.maxIncluded
    ensures Select(pending, c.maxIncluded - |r.out.transactions|, UNLOCKED) == Some((batch, rest))
    ensures BatchStep(c, r, batch) == Some(next) && Parallel(c, pending, r) == Parallel(c, rest, next)
    ensures multiset(batch) + multiset(rest) == multiset(pending) && |rest| < |pending|
    ensures |r.out.transactions| + |batch| <= c.maxIncluded
    ensures PairwiseIndependent(batch) && Identified(batch) && Identified(rest)
  {
    var capacity := c.maxIncluded - |r.out.transactions|;
    batch, rest := Select(pending, capacity, UNLOCKED).value.0, Select(pending, capacity, UNLOCKED).value.1;
    next := BatchStep(c, r, batch).value;
    SelectPartitions(pending, capacity, UNLOCKED);
    SelectedIndependent(pending, capacity, UNLOCKED);
    SelectIdentified(pending, batch, rest);
  }

  lemma SelectIdentified(pending: seq<Tx>, batch: seq<Tx>, rest: seq<Tx>)
    requires Identified(pending) && multiset(batch) + multiset(rest) == multiset(pending)
    ensures Identified(batch) && Identified(rest)
  {
    PartIdentified(pending, batch);
    PartIdentified(pending, rest);
  }

  lemma PartIdentified(pending: seq<Tx>, part: seq<Tx>)
    requires Identified(pending) && multiset(part) <= multiset(pending)
    ensures Identified(part)
  {
    forall i | 0 <= i < |part| ensures part[i] in pending {
      assert part[i] in multiset(part);
      assert part[i] in multiset(pending);
    }
  }
}
