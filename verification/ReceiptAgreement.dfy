/** Which published lists give every verifier the receipts of their serial execution. */
module ReceiptAgreement {

  import opened Wrappers
  import opened ChainState
  import opened ParallelExecution
  import opened Rebatching

  function StartOf(state: Accounts, processed: set<TxId>): Run {
    Run(state, processed, EMPTY_OUTPUT)
  }

  /** The verifier's call on a published list. */
  function VerifierOf(execute: Executor, limit: Usage, published: seq<Tx>): Config {
    Config(execute, limit, |published|, true)
  }

  /** An executor the model admits, under which the list can be executed one by one within the limit. */
  ghost predicate RunsSerially(execute: Executor, limit: Usage, published: seq<Tx>, state: Accounts, processed: set<TxId>) {
    && Framed(execute)
    && OneByOne(execute, OutcomeOf(StartOf(state, processed)), published).Some?
    && HasRoom(VerifierOf(execute, limit, published), StartOf(state, processed), published)
  }

  /** If the list runs serially, the verifier gets through with the serial receipts. */
  ghost predicate ReceiptsAgree(execute: Executor, limit: Usage, published: seq<Tx>, state: Accounts, processed: set<TxId>) {
    RunsSerially(execute, limit, published, state, processed) ==>
      var verifier := Parallel(VerifierOf(execute, limit, published), published, StartOf(state, processed));
      && verifier.Some?
      && verifier.value.0.out.receipts ==
         OneByOne(execute, OutcomeOf(StartOf(state, processed)), published).value.receipts
  }

  lemma KeptOrderAgrees(execute: Executor, limit: Usage, published: seq<Tx>, state: Accounts, processed: set<TxId>)
    requires Identified(published) && KeepsOrder(published)
    ensures ReceiptsAgree(execute, limit, published, state, processed)
  {
    hide Framed, Identified, KeepsOrder, Parallel, OneByOne, HasRoom;
    if RunsSerially(execute, limit, published, state, processed) {
      VerifierGetsThrough(VerifierOf(execute, limit, published), published, StartOf(state, processed));
    }
  }

  // ----- An executor whose receipts tell the order -----

  /** The first place of a transaction in a list that has it. */
  function PlaceIn(list: seq<Tx>, tx: Tx): nat {
    if list == [] || list[0] == tx then 0 else 1 + PlaceIn(list[1..], tx)
  }

  lemma {:induction false} PlaceFinds(list: seq<Tx>, tx: Tx)
    requires tx in list
    ensures PlaceIn(list, tx) < |list| && list[PlaceIn(list, tx)] == tx
  {
    if list[0] != tx {
      PlaceFinds(list[1..], tx);
    }
  }

  function Numbered(list: seq<Tx>, tx: Tx): Execution {
    Execution(true, [], 0, PlaceIn(list, tx), UNUSED)
  }

  /** Executes everything to no effect, and stamps the receipt with the place of the transaction in the list. */
  ghost predicate Numbers(execute: Executor, list: seq<Tx>) {
    forall tx, m, p :: execute(tx, m, p) == Some(Numbered(list, tx))
  }

  lemma NumberingExists(list: seq<Tx>) returns (execute: Executor)
    ensures Numbers(execute, list)
  {
    execute := (tx: Tx, m: Accounts, p: set<TxId>) => Some(Numbered(list, tx));
  }

  lemma NumberingIsFramed(execute: Executor, list: seq<Tx>)
    requires Numbers(execute, list)
    ensures Framed(execute)
  {
    forall tx ensures FramedAt(execute, tx) {
    }
  }

  function PlacesOf(list: seq<Tx>, txs: seq<Tx>): seq<nat> {
    seq(|txs|, i requires 0 <= i < |txs| => PlaceIn(list, txs[i]))
  }

  lemma {:induction false} NumberedRun(execute: Executor, list: seq<Tx>, o: Outcome, txs: seq<Tx>)
    requires Numbers(execute, list)
    ensures OneByOne(execute, o, txs).Some?
    ensures OneByOne(execute, o, txs).value.receipts == o.receipts + PlacesOf(list, txs)
    ensures AtMost(UnitsOf(execute, o, txs), UNUSED)
  {
    hide PlaceIn, OneByOne, UnitsOf, WrittenAll, Plus, AtMost;
    UnusedIsNothing();
    if txs == [] {
      NothingExecuted(execute, o);
      assert o.receipts + PlacesOf(list, txs) == o.receipts;
    } else {
      var front, last := txs[..|txs| - 1], txs[|txs| - 1];
      assert txs == front + [last];
      NumberedRun(execute, list, o, front);
      OneMore(execute, o, front, last, Numbered(list, last));
      NothingUsed(UnitsOf(execute, o, front), UNUSED, UNUSED);
      assert o.receipts + PlacesOf(list, front) + [PlaceIn(list, last)] == o.receipts + PlacesOf(list, txs);
    }
  }

  lemma NothingUsed(u: Usage, v: Usage, limit: Usage)
    requires AtMost(u, UNUSED) && AtMost(v, UNUSED)
    ensures AtMost(Plus(u, v), limit)
  {
  }

  lemma UnusedIsNothing()
    ensures AtMost(UNUSED, UNUSED)
  {
  }

  lemma NothingExecuted(execute: Executor, o: Outcome)
    ensures OneByOne(execute, o, []) == Some(o) && UnitsOf(execute, o, []) == UNUSED
  {
  }

  lemma PlacesDetermine(list: seq<Tx>, txs: seq<Tx>)
    requires multiset(txs) == multiset(list) && PlacesOf(list, txs) == PlacesOf(list, list)
    ensures txs == list
  {
    hide PlaceIn;
    forall i | 0 <= i < |list| ensures |txs| == |list| && txs[i] == list[i] {
      assert |txs| == |PlacesOf(list, txs)| == |PlacesOf(list, list)|;
      assert txs[i] in multiset(txs) && txs[i] in multiset(list);
      assert PlacesOf(list, txs)[i] == PlacesOf(list, list)[i];
      PlaceFinds(list, txs[i]);
      PlaceFinds(list, list[i]);
    }
    assert |multiset(txs)| == |multiset(list)|;
  }

  lemma NumberingRuns(execute: Executor, published: seq<Tx>, limit: Usage, state: Accounts, processed: set<TxId>)
    requires Numbers(execute, published)
    ensures RunsSerially(execute, limit, published, state, processed)
    ensures OneByOne(execute, OutcomeOf(StartOf(state, processed)), published).Some?
    ensures OneByOne(execute, OutcomeOf(StartOf(state, processed)), published).value.receipts ==
            PlacesOf(published, published)
  {
    hide Framed, OneByOne, UnitsOf, PlacesOf, Numbers, Plus, AtMost;
    var o := OutcomeOf(StartOf(state, processed));
    NumberingIsFramed(execute, published);
    NumberedRun(execute, published, o, published);
    UnusedIsNothing();
    NothingUsed(UNUSED, UnitsOf(execute, o, published), limit);
    assert [] + PlacesOf(published, published) == PlacesOf(published, published);
  }

  /** The receipts of the numbering verifier tell what it included. */
  lemma NumberedInclusion(execute: Executor, published: seq<Tx>, limit: Usage, state: Accounts, processed: set<TxId>)
    requires Identified(published) && Numbers(execute, published)
    requires ReceiptsAgree(execute, limit, published, state, processed)
    ensures var verifier := Parallel(VerifierOf(execute, limit, published), published, StartOf(state, processed));
            verifier.Some? && verifier.value.0.out.transactions == published
  {
    hide Identified, Framed, Parallel, OneByOne, UnitsOf, PlacesOf, Numbers, RunsSerially, Plus, AtMost;
    var c, start := VerifierOf(execute, limit, published), StartOf(state, processed);
    NumberingIsFramed(execute, published);
    NumberingRuns(execute, published, limit, state, processed);
    var included, rejected := ParallelIsSerial(c, published, start);
    NumberedRun(execute, published, OutcomeOf(start), included);
    assert [] + included == included && [] + PlacesOf(published, included) == PlacesOf(published, included);
    WholeList(c, published, start, included, rejected);
    PlacesDetermine(published, included);
  }

  /** A verifier that reports the places in ascending order has kept the order. */
  lemma NumberingTells(execute: Executor, published: seq<Tx>, limit: Usage, state: Accounts, processed: set<TxId>)
    requires Identified(published) && Numbers(execute, published)
    requires ReceiptsAgree(execute, limit, published, state, processed)
    ensures KeepsOrder(published)
  {
    hide Identified, KeepsOrder, Parallel, Batches, Flatten, Numbers, ReceiptsAgree;
    NumberedInclusion(execute, published, limit, state, processed);
    StrictIncludes(VerifierOf(execute, limit, published), published, StartOf(state, processed));
    var batches := Batches(published, |published|).value;
    assert [] + Flatten(batches) == Flatten(batches);
    OrderKeptExactlyWhen(published);
  }

  /** As many receipts as the list has places, so the verifier included the whole list. */
  lemma WholeList(c: Config, published: seq<Tx>, start: Run, included: seq<Tx>, rejected: seq<Tx>)
    requires Parallel(c, published, start).Some?
    requires Refines(c, published, start, Parallel(c, published, start).value.0, Parallel(c, published, start).value.1, included, rejected)
    requires PlacesOf(published, included) == PlacesOf(published, published)
    ensures multiset(included) == multiset(published)
  {
    hide Parallel, OneByOne, UnitsOf, PlaceIn;
    var left := Parallel(c, published, start).value.1;
    assert |included| == |PlacesOf(published, included)| == |PlacesOf(published, published)| == |published|;
    var m := multiset(included) + multiset(rejected) + multiset(left);
    assert |m| == |multiset(included)| + |multiset(rejected)| + |multiset(left)| && |m| == |multiset(published)|;
    assert |multiset(included)| == |included| && |multiset(published)| == |published|;
    assert rejected == [] && left == [];
  }

  /** For a published list, the verifier agrees with its serial execution in the receipts, under every executor that
      keeps to the declared accounts and every state in which the list can be executed one by one, if and only if
      the declared accounts keep the order of the list. */
  lemma ReceiptsAgreeExactlyWhen(published: seq<Tx>, limit: Usage)
    requires Identified(published)
    ensures (forall execute: Executor, state: Accounts, processed: set<TxId> ::
               ReceiptsAgree(execute, limit, published, state, processed)) <==>
            KeepsOrder(published)
  {
    hide ReceiptsAgree, KeepsOrder, Identified, Numbers;
    if KeepsOrder(published) {
      forall execute: Executor, state: Accounts, processed: set<TxId>
        ensures ReceiptsAgree(execute, limit, published, state, processed)
      {
        KeptOrderAgrees(execute, limit, published, state, processed);
      }
    } else {
      var execute := NumberingExists(published);
      if ReceiptsAgree(execute, limit, published, map[], {}) {
        NumberingTells(execute, published, limit, map[], {});
      }
    }
  }
}
