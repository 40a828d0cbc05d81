/** The in-order message sequencer of a connection, run by racing parse workers.

    The steps are the critical sections of the source: a worker stores its message and claims the flush in
    one, takes the ready run in another, and clears the claim in a third; messages are dispatched in
    between, outside the lock. Any worker may take any step at any moment. */
module Sequencer {

  type Key = string

  type Message = string

  datatype OrderState = OrderState(next: nat, pending: map<nat, Message>, flushing: bool)

  const FRESH := OrderState(0, map[], false)

  // ----- The critical sections, as functions and as the object the workers share -----

  /** Stores a message; the flush is claimed unless somebody holds it already. */
  function Submitted(o: OrderState, n: nat, m: Message): OrderState {
    o.(pending := o.pending[n := m], flushing := true)
  }

  /** The run of consecutive messages that is ready, and what is left. */
  function Taken(o: OrderState): (seq<Message>, OrderState)
    decreases |o.pending|
  {
    if o.next !in o.pending then ([], o)
    else
      var m := o.pending[o.next];
      var (rest, o') := Taken(o.(next := o.next + 1, pending := o.pending - {o.next}));
      ([m] + rest, o')
  }

  class SharedOrder {
    var next: nat
    var pending: map<nat, Message>
    var flushing: bool

    function Abstract(): OrderState
      reads this
    {
      OrderState(next, pending, flushing)
    }

    constructor ()
      ensures Abstract() == FRESH
    {
      next, pending, flushing := 0, map[], false;
    }

    /** First critical section of a dispatch: tells the worker whether the flush is now its own. */
    method Submit(n: nat, m: Message) returns (claimed: bool)
      modifies this
      ensures Abstract() == Submitted(old(Abstract()), n, m)
      ensures claimed == !old(flushing)
    {
      pending := pending[n := m];
      if flushing {
        return false;
      }
      flushing := true;
      return true;
    }

    /** Second critical section: removes and returns the ready run. */
    method TakeReady() returns (ready: seq<Message>)
      modifies this
      ensures (ready, Abstract()) == Taken(old(Abstract()))
    {
      ready := [];
      assert ready + Taken(Abstract()).0 == Taken(Abstract()).0;
      while next in pending
        invariant Taken(old(Abstract())) == (ready + Taken(Abstract()).0, Taken(Abstract()).1)
        decreases |pending|
      {
        ghost var o := Abstract();
        ghost var was := ready;
        var m := pending[next];
        pending := pending - {next};
        next := next + 1;
        ready := ready + [m];
        assert was + ([m] + Taken(Abstract()).0) == ready + Taken(Abstract()).0;
      }
      assert ready + [] == ready;
    }

    /** Third critical section: gives the flush back. */
    method Release()
      modifies this
      ensures Abstract() == old(Abstract()).(flushing := false)
    {
      flushing := false;
    }
  }

  /** Taking from a gap-free stretch of a log yields exactly that stretch. */
  lemma {:induction false} TakenIsStretch(o: OrderState, log: seq<Message>)
    requires o.next <= |log|
    requires forall i :: i in o.pending ==> o.next <= i < |log| && o.pending[i] == log[i]
    ensures var (ready, o') := Taken(o);
            && o.next <= o'.next <= |log|
            && ready == log[o.next..o'.next]
            && o'.flushing == o.flushing
            && o'.next !in o'.pending
            && forall i :: i in o'.pending <==> i in o.pending && i >= o'.next
    ensures var o' := Taken(o).1;
            forall i :: i in o'.pending ==> o'.pending[i] == o.pending[i]
    decreases |o.pending|
  {
    if o.next in o.pending {
      var o1 := o.(next := o.next + 1, pending := o.pending - {o.next});
      TakenIsStretch(o1, log);
      var o' := Taken(o).1;
      assert [log[o.next]] + log[o.next + 1..o'.next] == log[o.next..o'.next];
    } else {
      assert log[o.next..o.next] == [];
    }
  }

  // ----- The whole connection -----

  datatype Job = Job(key: Key, number: nat, message: Message)

  /** Where a worker stands. The three flush positions hold the claim of `key`. */
  datatype Worker =
    | Idle
    | Holding(job: Job)
    | Taking(key: Key)
    | Delivering(key: Key, ready: seq<Message>)
    | Dispatching(key: Key, ready: seq<Message>)
    | Releasing(key: Key)
    | Gone

  datatype Event = Begin(message: Message) | End(message: Message)

  /** `log` is what the reader has read, per key; `trace` is what was dispatched, as it happened. */
  datatype State = State(
    log: map<Key, seq<Message>>,
    jobs: set<Job>,
    orders: map<Key, OrderState>,
    workers: map<nat, Worker>,
    trace: map<Key, seq<Event>>)

  datatype Action =
    | Read(key: Key, message: Message)
    | Fetch(w: nat, job: Job)
    | Discard(w: nat)
    | Submit(w: nat)
    | TakeReady(w: nat)
    | BeginDispatch(w: nat)
    | EndDispatch(w: nat, stop: bool)
    | Release(w: nat)

  function Log(s: State, k: Key): seq<Message> {
    if k in s.log then s.log[k] else []
  }

  function Order(s: State, k: Key): OrderState {
    if k in s.orders then s.orders[k] else FRESH
  }

  function Trace(s: State, k: Key): seq<Event> {
    if k in s.trace then s.trace[k] else []
  }

  function At(s: State, w: nat): Worker {
    if w in s.workers then s.workers[w] else Idle
  }

  /** One step; an action that is not enabled leaves the connection as it is. */
  function Step(s: State, a: Action): State {
    match a
    case Read(k, m) =>
      s.(log := s.log[k := Log(s, k) + [m]], jobs := s.jobs + {Job(k, |Log(s, k)|, m)})
    case Fetch(w, job) =>
      if At(s, w).Idle? && job in s.jobs then
        s.(jobs := s.jobs - {job}, workers := s.workers[w := Holding(job)])
      else s
    case Discard(w) =>
      if At(s, w).Holding? then s.(workers := s.workers[w := Gone]) else s
    case Submit(w) =>
      if At(s, w).Holding? then
        var job := At(s, w).job;
        var o := Order(s, job.key);
        s.(orders := s.orders[job.key := Submitted(o, job.number, job.message)],
           workers := s.workers[w := if o.flushing then Idle else Taking(job.key)])
      else s
    case TakeReady(w) =>
      if At(s, w).Taking? then
        var k := At(s, w).key;
        var (ready, o) := Taken(Order(s, k));
        s.(orders := s.orders[k := o],
           workers := s.workers[w := if ready == [] then Releasing(k) else Delivering(k, ready)])
      else s
    case BeginDispatch(w) =>
      if At(s, w).Delivering? && At(s, w).ready != [] then
        var k, ready := At(s, w).key, At(s, w).ready;
        s.(workers := s.workers[w := Dispatching(k, ready)], trace := s.trace[k := Trace(s, k) + [Begin(ready[0])]])
      else s
    case EndDispatch(w, stop) =>
      if At(s, w).Dispatching? && At(s, w).ready != [] then
        var k, ready := At(s, w).key, At(s, w).ready;
        s.(workers := s.workers[w := if stop then Gone else if |ready| == 1 then Taking(k) else Delivering(k, ready[1..])],
           trace := s.trace[k := Trace(s, k) + [End(ready[0])]])
      else s
    case Release(w) =>
      if At(s, w).Releasing? then
        var k := At(s, w).key;
        s.(orders := s.orders[k := Order(s, k).(flushing := false)], workers := s.workers[w := Idle])
      else s
  }

  const START := State(map[], {}, map[], map[], map[])

  function After(actions: seq<Action>): State {
    if actions == [] then START else Step(After(actions[..|actions| - 1]), actions[|actions| - 1])
  }

  // ----- What every step keeps -----

  predicate Flushes(p: Worker, k: Key) {
    (p.Taking? || p.Delivering? || p.Dispatching? || p.Releasing?) && p.key == k
  }

  /** The event that must come at place `i`: each message begins and ends before the next one begins. */
  function EventAt(log: seq<Message>, i: nat): Event
    requires i / 2 < |log|
  {
    if i % 2 == 0 then Begin(log[i / 2]) else End(log[i / 2])
  }

  ghost predicate InOrder(log: seq<Message>, trace: seq<Event>) {
    forall i :: 0 <= i < |trace| ==> i / 2 < |log| && trace[i] == EventAt(log, i)
  }

  /** A job on its way is numbered by its place in the log, and was not stored before. */
  ghost predicate Fresh(s: State, job: Job) {
    && Order(s, job.key).next <= job.number < |Log(s, job.key)|
    && job.message == Log(s, job.key)[job.number]
    && job.number !in Order(s, job.key).pending
  }

  ghost predicate JobsSound(s: State) {
    && (forall j :: j in s.jobs ==> Fresh(s, j))
    && (forall w :: At(s, w).Holding? ==> Fresh(s, At(s, w).job) && At(s, w).job !in s.jobs)
    && (forall v, w :: v != w && At(s, v).Holding? && At(s, w).Holding? ==> At(s, v).job != At(s, w).job)
  }

  ghost predicate OrderSound(s: State, k: Key) {
    var o := Order(s, k);
    && o.next <= |Log(s, k)|
    && forall i :: i in o.pending ==> o.next <= i < |Log(s, k)| && o.pending[i] == Log(s, k)[i]
  }

  ghost predicate OneFlusher(s: State, k: Key) {
    && (forall v, w :: Flushes(At(s, v), k) && Flushes(At(s, w), k) ==> v == w)
    && (forall w :: Flushes(At(s, w), k) ==> Order(s, k).flushing)
  }

  /** What a flushing worker still holds is exactly the stretch between the trace and the next number. */
  ghost predicate FlusherSound(s: State, k: Key, p: Worker) {
    var done, next := |Trace(s, k)| / 2, Order(s, k).next;
    && done <= next <= |Log(s, k)|
    && (|Trace(s, k)| % 2 == 1 <==> p.Dispatching?)
    && (p.Delivering? || p.Dispatching? ==> p.ready != [] && p.ready == Log(s, k)[done..next])
    && (p.Taking? || p.Releasing? ==> done == next)
  }

  ghost predicate TraceSound(s: State, k: Key) {
    && InOrder(Log(s, k), Trace(s, k))
    && (forall w :: Flushes(At(s, w), k) ==> FlusherSound(s, k, At(s, w)))
    && (!Order(s, k).flushing ==> |Trace(s, k)| == 2 * Order(s, k).next)
    && |Trace(s, k)| / 2 <= Order(s, k).next
    && ((forall w :: !Flushes(At(s, w), k)) ==> |Trace(s, k)| % 2 == 0)
  }

  ghost predicate Sound(s: State) {
    && JobsSound(s)
    && forall k :: OrderSound(s, k) && OneFlusher(s, k) && TraceSound(s, k)
  }

  /** Nothing that belongs to key `k` differs between the states. */
  ghost predicate SameKey(s: State, t: State, k: Key) {
    && Log(s, k) == Log(t, k) && Order(s, k) == Order(t, k) && Trace(s, k) == Trace(t, k)
    && forall w :: Flushes(At(s, w), k) || Flushes(At(t, w), k) ==> At(s, w) == At(t, w)
  }

  lemma SameKeySound(s: State, t: State, k: Key)
    requires SameKey(s, t, k) && OrderSound(s, k) && OneFlusher(s, k) && TraceSound(s, k)
    ensures OrderSound(t, k) && OneFlusher(t, k) && TraceSound(t, k)
  {
    forall w | Flushes(At(t, w), k) ensures Flushes(At(s, w), k) && At(s, w) == At(t, w) {
    }
    if forall w :: !Flushes(At(t, w), k) {
      forall w ensures !Flushes(At(s, w), k) {
      }
    }
  }

  /** A step that concerns one key needs to be checked for that key only. */
  lemma Conclude(s: State, t: State, k: Key)
    requires Sound(s) && JobsSound(t)
    requires OrderSound(t, k) && OneFlusher(t, k) && TraceSound(t, k)
    requires forall k' :: k' != k ==> SameKey(s, t, k')
    ensures Sound(t)
  {
    forall k' ensures OrderSound(t, k') && OneFlusher(t, k') && TraceSound(t, k') {
      if k' != k {
        SameKeySound(s, t, k');
      }
    }
  }

  /** Between the states only worker `w` and key `k` changed. */
  ghost predicate Touches(s: State, t: State, w: nat, k: Key) {
    && (forall v :: v != w ==> At(t, v) == At(s, v))
    && (forall k' :: k' != k ==> Log(t, k') == Log(s, k') && Order(t, k') == Order(s, k') && Trace(t, k') == Trace(s, k'))
    && (forall k' :: k' != k ==> !Flushes(At(s, w), k') && !Flushes(At(t, w), k'))
  }

  lemma ConcludeTouched(s: State, t: State, w: nat, k: Key)
    requires Sound(s) && Touches(s, t, w, k) && JobsSound(t)
    requires OrderSound(t, k) && OneFlusher(t, k) && TraceSound(t, k)
    ensures Sound(t)
  {
    hide Log, Order, Trace, At, Flushes, JobsSound, OrderSound, OneFlusher, TraceSound;
    Conclude(s, t, k);
  }

  /** The flusher of a key moves on: it is still the only one, and the key is sound if its own share is. */
  lemma FlusherMoves(s: State, t: State, w: nat, k: Key)
    requires OneFlusher(s, k) && Flushes(At(s, w), k) && forall v :: v != w ==> At(t, v) == At(s, v)
    requires InOrder(Log(t, k), Trace(t, k)) && Order(t, k).flushing && |Trace(t, k)| / 2 <= Order(t, k).next
    requires Flushes(At(t, w), k) ==> FlusherSound(t, k, At(t, w))
    requires !Flushes(At(t, w), k) ==> |Trace(t, k)| % 2 == 0
    ensures OneFlusher(t, k) && TraceSound(t, k)
  {
    hide Log, Order, Trace, At, InOrder, FlusherSound;
    assert forall v :: v != w && Flushes(At(t, v), k) ==> Flushes(At(s, v), k);
  }

  // ----- Reading, fetching, discarding -----

  lemma ReadJobs(s: State, t: State, k: Key, m: Message)
    requires Sound(s) && t == Step(s, Read(k, m))
    ensures JobsSound(t)
  {
    assert Log(t, k) == Log(s, k) + [m];
    assert forall v :: At(t, v) == At(s, v);
    assert OrderSound(s, k);
    forall j | j in t.jobs ensures Fresh(t, j) {
      assert j in s.jobs ==> Fresh(s, j);
    }
    forall w | At(t, w).Holding? ensures Fresh(t, At(t, w).job) && At(t, w).job !in t.jobs {
      assert At(s, w) == At(t, w) && Fresh(s, At(s, w).job);
    }
  }

  /** A longer log disturbs nothing that was in order. */
  lemma LongerLogSound(s: State, t: State, k: Key, m: Message)
    requires OrderSound(s, k) && OneFlusher(s, k) && TraceSound(s, k)
    requires Log(t, k) == Log(s, k) + [m] && Order(t, k) == Order(s, k) && Trace(t, k) == Trace(s, k)
    requires forall v :: At(t, v) == At(s, v)
    ensures OrderSound(t, k) && OneFlusher(t, k) && TraceSound(t, k)
  {
    hide Log, Order, Trace, At;
    forall w | Flushes(At(t, w), k) ensures FlusherSound(t, k, At(t, w)) {
      assert FlusherSound(s, k, At(s, w));
      var done, next := |Trace(s, k)| / 2, Order(s, k).next;
      assert Log(t, k)[done..next] == Log(s, k)[done..next];
    }
  }

  lemma ReadSound(s: State, k: Key, m: Message)
    requires Sound(s)
    ensures Sound(Step(s, Read(k, m)))
  {
    hide OrderSound, OneFlusher, TraceSound, JobsSound;
    var t := Step(s, Read(k, m));
    ReadJobs(s, t, k, m);
    LongerLogSound(s, t, k, m);
    Conclude(s, t, k);
  }

  lemma FetchSound(s: State, w: nat, job: Job)
    requires Sound(s)
    ensures Sound(Step(s, Fetch(w, job)))
  {
    var t := Step(s, Fetch(w, job));
    assert forall v :: v != w ==> At(t, v) == At(s, v);
    forall k ensures OrderSound(t, k) && OneFlusher(t, k) && TraceSound(t, k) {
      SameKeySound(s, t, k);
    }
  }

  lemma DiscardSound(s: State, w: nat)
    requires Sound(s)
    ensures Sound(Step(s, Discard(w)))
  {
    var t := Step(s, Discard(w));
    assert forall v :: v != w ==> At(t, v) == At(s, v);
    forall k ensures OrderSound(t, k) && OneFlusher(t, k) && TraceSound(t, k) {
      SameKeySound(s, t, k);
    }
  }

  // ----- Submitting -----

  lemma SubmitEffect(s: State, t: State, w: nat)
    requires At(s, w).Holding? && t == Step(s, Submit(w))
    ensures var job := At(s, w).job; var k := job.key;
            && Touches(s, t, w, k) && t.jobs == s.jobs && Log(t, k) == Log(s, k) && Trace(t, k) == Trace(s, k)
            && Order(t, k) == Submitted(Order(s, k), job.number, job.message)
            && At(t, w) == if Order(s, k).flushing then Idle else Taking(k)
  {
  }

  lemma SubmitJobs(s: State, w: nat)
    requires Sound(s) && At(s, w).Holding?
    ensures JobsSound(Step(s, Submit(w)))
  {
    hide Log, Order, At, Trace, Step, OrderSound, OneFlusher, TraceSound;
    var t := Step(s, Submit(w));
    SubmitEffect(s, t, w);
    var job := At(s, w).job;
    forall j | j in t.jobs ensures Fresh(t, j) {
      assert Fresh(s, j) && Fresh(s, job) && j != job;
    }
    forall v | At(t, v).Holding? ensures Fresh(t, At(t, v).job) && At(t, v).job !in t.jobs {
      assert v != w && At(s, v) == At(t, v) && Fresh(s, At(s, v).job) && Fresh(s, job);
    }
  }

  lemma SubmitKey(s: State, t: State, w: nat, k: Key)
    requires Sound(s) && At(s, w).Holding? && k == At(s, w).job.key && t == Step(s, Submit(w))
    ensures OrderSound(t, k) && OneFlusher(t, k) && TraceSound(t, k)
  {
    hide Log, Order, Trace, At, Step;
    var job := At(s, w).job;
    SubmitEffect(s, t, w);
    assert Fresh(s, job) && OrderSound(s, k) && OneFlusher(s, k) && TraceSound(s, k);
    forall v | Flushes(At(t, v), k) ensures FlusherSound(t, k, At(t, v)) {
      if v != w {
        assert FlusherSound(s, k, At(s, v));
      }
    }
    if forall v :: !Flushes(At(t, v), k) {
      forall v ensures !Flushes(At(s, v), k) {
        assert v != w ==> At(t, v) == At(s, v);
      }
    }
  }

  lemma SubmitSound(s: State, w: nat)
    requires Sound(s) && At(s, w).Holding?
    ensures Sound(Step(s, Submit(w)))
  {
    hide Sound, OrderSound, OneFlusher, TraceSound, JobsSound, Touches, Step;
    var t, k := Step(s, Submit(w)), At(s, w).job.key;
    SubmitEffect(s, t, w);
    SubmitJobs(s, w);
    SubmitKey(s, t, w, k);
    ConcludeTouched(s, t, w, k);
  }

  // ----- Taking what is ready -----

  lemma TakeEffect(s: State, t: State, w: nat)
    requires At(s, w).Taking? && t == Step(s, TakeReady(w))
    ensures var k := At(s, w).key; var (ready, o) := Taken(Order(s, k));
            && Touches(s, t, w, k) && t.jobs == s.jobs && Log(t, k) == Log(s, k) && Trace(t, k) == Trace(s, k)
            && Order(t, k) == o && At(t, w) == if ready == [] then Releasing(k) else Delivering(k, ready)
  {
    hide Taken;
  }

  lemma TakeJobs(s: State, t: State, w: nat)
    requires Sound(s) && At(s, w).Taking? && t == Step(s, TakeReady(w))
    ensures JobsSound(t)
  {
    hide Log, Order, At, Trace, Step, Taken, OneFlusher, TraceSound;
    var k := At(s, w).key;
    TakeEffect(s, t, w);
    assert OrderSound(s, k);
    forall j | j in t.jobs ensures Fresh(t, j) {
      StillFresh(s, t, k, j);
    }
    forall v | At(t, v).Holding? ensures Fresh(t, At(t, v).job) && At(t, v).job !in t.jobs {
      assert v != w && At(s, v) == At(t, v);
      StillFresh(s, t, k, At(s, v).job);
    }
  }

  lemma StillFresh(s: State, t: State, k: Key, j: Job)
    requires Fresh(s, j) && OrderSound(s, k) && Order(t, k) == Taken(Order(s, k)).1 && Log(t, k) == Log(s, k)
    requires j.key != k ==> Order(t, j.key) == Order(s, j.key) && Log(t, j.key) == Log(s, j.key)
    ensures Fresh(t, j)
  {
    hide Log, Order, Taken;
    if j.key == k {
      StoredOnly(s, k, j);
      TakenIsStretch(Order(s, k), Log(s, k));
    }
  }

  lemma TakeKey(s: State, t: State, w: nat, k: Key)
    requires Sound(s) && At(s, w).Taking? && k == At(s, w).key && t == Step(s, TakeReady(w))
    ensures OrderSound(t, k) && OneFlusher(t, k) && TraceSound(t, k)
  {
    hide Log, Order, Trace, At, Step, Taken, InOrder;
    TakeEffect(s, t, w);
    assert OrderSound(s, k) && OneFlusher(s, k) && TraceSound(s, k);
    assert FlusherSound(s, k, At(s, w));
    TakenIsStretch(Order(s, k), Log(s, k));
    FlusherMoves(s, t, w, k);
  }

  lemma TakeReadySound(s: State, w: nat)
    requires Sound(s) && At(s, w).Taking?
    ensures Sound(Step(s, TakeReady(w)))
  {
    hide Sound, OrderSound, OneFlusher, TraceSound, JobsSound, Touches, Step, Taken;
    var t, k := Step(s, TakeReady(w)), At(s, w).key;
    TakeEffect(s, t, w);
    TakeJobs(s, t, w);
    TakeKey(s, t, w, k);
    ConcludeTouched(s, t, w, k);
  }

  /** Numbers that were never stored are beyond the run that was taken. */
  lemma StoredOnly(s: State, k: Key, j: Job)
    requires OrderSound(s, k) && Fresh(s, j) && j.key == k
    ensures Taken(Order(s, k)).1.next <= j.number
  {
    TakenStops(Order(s, k), j.number);
  }

  lemma {:induction false} TakenStops(o: OrderState, n: nat)
    requires n !in o.pending && o.next <= n
    ensures Taken(o).1.next <= n
    decreases |o.pending|
  {
    if o.next in o.pending {
      TakenStops(o.(next := o.next + 1, pending := o.pending - {o.next}), n);
    }
  }

  // ----- Dispatching -----

  lemma BeginEffect(s: State, t: State, w: nat)
    requires At(s, w).Delivering? && At(s, w).ready != [] && t == Step(s, BeginDispatch(w))
    ensures var k, ready := At(s, w).key, At(s, w).ready;
            && Touches(s, t, w, k) && t.jobs == s.jobs && t.log == s.log && t.orders == s.orders
            && Log(t, k) == Log(s, k) && Order(t, k) == Order(s, k)
            && Trace(t, k) == Trace(s, k) + [Begin(ready[0])] && At(t, w) == Dispatching(k, ready)
  {
  }

  lemma BeginKey(s: State, t: State, w: nat, k: Key)
    requires Sound(s) && At(s, w).Delivering? && At(s, w).ready != [] && k == At(s, w).key && t == Step(s, BeginDispatch(w))
    ensures OrderSound(t, k) && OneFlusher(t, k) && TraceSound(t, k)
  {
    hide Log, Order, Trace, At, Step;
    BeginEffect(s, t, w);
    assert OrderSound(s, k) && OneFlusher(s, k) && TraceSound(s, k);
    assert FlusherSound(s, k, At(s, w));
    assert At(s, w).ready[0] == Log(s, k)[|Trace(s, k)| / 2];
    FlusherMoves(s, t, w, k);
  }

  lemma BeginSound(s: State, w: nat)
    requires Sound(s) && At(s, w).Delivering? && At(s, w).ready != []
    ensures Sound(Step(s, BeginDispatch(w)))
  {
    hide OrderSound, OneFlusher, TraceSound, JobsSound, Step;
    var t, k := Step(s, BeginDispatch(w)), At(s, w).key;
    BeginEffect(s, t, w);
    KeepJobs(s, t, w);
    BeginKey(s, t, w, k);
    ConcludeTouched(s, t, w, k);
  }

  lemma EndEffect(s: State, t: State, w: nat, stop: bool)
    requires At(s, w).Dispatching? && At(s, w).ready != [] && t == Step(s, EndDispatch(w, stop))
    ensures var k, ready := At(s, w).key, At(s, w).ready;
            && Touches(s, t, w, k) && t.jobs == s.jobs && t.log == s.log && t.orders == s.orders
            && Log(t, k) == Log(s, k) && Order(t, k) == Order(s, k)
            && Trace(t, k) == Trace(s, k) + [End(ready[0])]
            && At(t, w) == if stop then Gone else if |ready| == 1 then Taking(k) else Delivering(k, ready[1..])
  {
  }

  lemma EndKey(s: State, t: State, w: nat, k: Key, stop: bool)
    requires Sound(s) && At(s, w).Dispatching? && At(s, w).ready != [] && k == At(s, w).key
    requires t == Step(s, EndDispatch(w, stop))
    ensures OrderSound(t, k) && OneFlusher(t, k) && TraceSound(t, k)
  {
    hide Log, Order, Trace, At, Step;
    EndEffect(s, t, w, stop);
    assert OrderSound(s, k) && OneFlusher(s, k) && TraceSound(s, k);
    assert FlusherSound(s, k, At(s, w));
    var ready, done, next := At(s, w).ready, |Trace(s, k)| / 2, Order(s, k).next;
    assert |ready| == next - done && ready[0] == Log(s, k)[done];
    assert ready[1..] == Log(s, k)[done + 1..next];
    FlusherMoves(s, t, w, k);
  }

  lemma EndSound(s: State, w: nat, stop: bool)
    requires Sound(s) && At(s, w).Dispatching? && At(s, w).ready != []
    ensures Sound(Step(s, EndDispatch(w, stop)))
  {
    hide OrderSound, OneFlusher, TraceSound, JobsSound, Step;
    var t, k := Step(s, EndDispatch(w, stop)), At(s, w).key;
    EndEffect(s, t, w, stop);
    KeepJobs(s, t, w);
    EndKey(s, t, w, k, stop);
    ConcludeTouched(s, t, w, k);
  }

  /** A step of one worker that touches neither jobs nor order states keeps the jobs sound. */
  lemma KeepJobs(s: State, t: State, w: nat)
    requires JobsSound(s) && s.jobs == t.jobs && s.log == t.log && s.orders == t.orders
    requires !At(t, w).Holding? && forall v :: v != w ==> At(s, v) == At(t, v)
    ensures JobsSound(t)
  {
    forall j | j in t.jobs ensures Fresh(t, j) {
      assert Fresh(s, j);
    }
    forall v | At(t, v).Holding? ensures Fresh(t, At(t, v).job) && At(t, v).job !in t.jobs {
      assert At(s, v) == At(t, v) && Fresh(s, At(s, v).job);
    }
  }

  // ----- Giving the claim back -----

  lemma ReleaseSound(s: State, w: nat)
    requires Sound(s) && At(s, w).Releasing?
    ensures Sound(Step(s, Release(w)))
  {
    var t := Step(s, Release(w));
    assert forall v :: v != w ==> At(t, v) == At(s, v);
    var k := At(s, w).key;
    assert OrderSound(s, k) && OneFlusher(s, k) && TraceSound(s, k);
    assert FlusherSound(s, k, At(s, w));
    forall j | j in t.jobs ensures Fresh(t, j) {
      assert Fresh(s, j);
    }
    forall v | At(t, v).Holding? ensures Fresh(t, At(t, v).job) && At(t, v).job !in t.jobs {
      assert v != w && At(s, v) == At(t, v) && Fresh(s, At(s, v).job);
    }
    forall v ensures !Flushes(At(t, v), k) {
      assert v != w ==> At(t, v) == At(s, v);
      assert Flushes(At(s, w), k);
    }
    Conclude(s, t, k);
  }

  lemma StepSound(s: State, a: Action)
    requires Sound(s)
    ensures Sound(Step(s, a))
  {
    match a
    case Read(k, m) => ReadSound(s, k, m);
    case Fetch(w, job) => FetchSound(s, w, job);
    case Discard(w) => DiscardSound(s, w);
    case Submit(w) => if At(s, w).Holding? { SubmitSound(s, w); }
    case TakeReady(w) => if At(s, w).Taking? { TakeReadySound(s, w); }
    case BeginDispatch(w) => if At(s, w).Delivering? && At(s, w).ready != [] { BeginSound(s, w); }
    case EndDispatch(w, stop) => if At(s, w).Dispatching? && At(s, w).ready != [] { EndSound(s, w, stop); }
    case Release(w) => if At(s, w).Releasing? { ReleaseSound(s, w); }
  }

  lemma {:induction false} AfterSound(actions: seq<Action>)
    ensures Sound(After(actions))
  {
    if actions != [] {
      AfterSound(actions[..|actions| - 1]);
      StepSound(After(actions[..|actions| - 1]), actions[|actions| - 1]);
    }
  }

  /** In-order delivery. After every interleaving of reader and workers, what was dispatched for a key is
      message 0, message 1, ... of what was read for it, each begun and ended before the next is begun:
      no gap, no repetition, no overlap. */
  lemma DeliveredInOrder(actions: seq<Action>, k: Key)
    ensures var s := After(actions);
            && InOrder(Log(s, k), Trace(s, k))
            && (|Trace(s, k)| + 1) / 2 <= |Log(s, k)|
  {
    AfterSound(actions);
    var s := After(actions);
    assert TraceSound(s, k);
    assert Trace(s, k) != [] ==> (|Trace(s, k)| - 1) / 2 < |Log(s, k)|;
  }

  /** At most one worker is dispatching messages of a key at any moment. */
  lemma NoOverlap(actions: seq<Action>, k: Key, v: nat, w: nat)
    requires var s := After(actions);
             At(s, v).Dispatching? && At(s, w).Dispatching? && At(s, v).key == k && At(s, w).key == k
    ensures v == w
  {
    AfterSound(actions);
    assert OneFlusher(After(actions), k);
    assert Flushes(At(After(actions), v), k) && Flushes(At(After(actions), w), k);
  }

  /** When no flush is claimed for a key, every message before the next expected number was dispatched. */
  lemma QuiescentIsComplete(actions: seq<Action>, k: Key)
    requires !Order(After(actions), k).flushing
    ensures var s := After(actions);
            |Trace(s, k)| == 2 * Order(s, k).next
  {
    AfterSound(actions);
    assert TraceSound(After(actions), k);
  }
}
