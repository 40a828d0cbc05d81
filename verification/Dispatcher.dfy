/** The partitioned protocol dispatcher: enqueuers, claim flags and workers, in every interleaving. */
module Dispatcher {

  import opened Bytes
  import opened Wrappers

  datatype Priority = High | Normal | Low

  datatype Concurrency = Ordered | Stateless | StateKey

  datatype Message = Message(protocol: nat, from: Bytes, id: Bytes, request: Option<Bytes>, payload: Bytes)

  /** What the registry knows of a protocol; `partitionKey` is `None` when it is absent or panics. */
  datatype Spec = Spec(priority: Priority, concurrency: Concurrency, partitionKey: Message -> Option<Bytes>)

  /** The registry, the priority of unregistered protocols, the hash, the number of partitions and the queue size of
      each priority. */
  datatype Config = Config(
    registry: map<nat, Spec>,
    defaultPriority: nat -> Priority,
    hash: Bytes -> nat,
    partitions: nat,
    capacity: Priority -> nat)

  // ----- Where a message goes -----

  function LowerByte(b: Byte): Byte {
    if 65 <= b <= 90 then b + 32 else b
  }

  function Lower(s: Bytes): Bytes {
    seq(|s|, i requires 0 <= i < |s| => LowerByte(s[i]))
  }

  predicate IsBlank(b: Byte) {
    9 <= b <= 13 || b == 32
  }

  function TrimLeft(s: Bytes): Bytes {
    if s != [] && IsBlank(s[0]) then TrimLeft(s[1..]) else s
  }

  function TrimRight(s: Bytes): Bytes {
    if s != [] && IsBlank(s[|s| - 1]) then TrimRight(s[..|s| - 1]) else s
  }

  function Trim(s: Bytes): Bytes {
    TrimRight(TrimLeft(s))
  }

  function ProtocolBytes(protocol: nat): Bytes {
    [protocol % 256, protocol / 256 % 256, protocol / 65536 % 256, protocol / 16777216 % 256]
  }

  /** The state key of a message: trimmed, lower case, and none if nothing is left. */
  function StateKeyOf(m: Message, spec: Spec): Option<Bytes> {
    var raw := spec.partitionKey(m);
    if raw.None? || Trim(raw.value) == [] then None else Some(Lower(Trim(raw.value)))
  }

  function StatelessKey(m: Message): Bytes {
    if m.request.Some? && m.request.value != [] then Lower(m.request.value) else Lower(m.id)
  }

  function HashIndex(c: Config, input: Bytes): nat
    requires c.partitions > 0
  {
    if c.partitions <= 1 then 0 else c.hash(input) % c.partitions
  }

  /** The bytes a message is hashed by: sender and protocol, with the stateless key if there is one; a state
      key takes the sender's place. */
  function HashInput(c: Config, m: Message): Bytes {
    var plain := m.from + ProtocolBytes(m.protocol);
    if m.protocol !in c.registry then plain
    else
      var spec := c.registry[m.protocol];
      match spec.concurrency
      case Ordered => plain
      case Stateless => plain + StatelessKey(m)
      case StateKey =>
        var key := StateKeyOf(m, spec);
        if key.None? then plain else ProtocolBytes(m.protocol) + Lower(key.value)
  }

  function PartitionIndex(c: Config, m: Message): (p: nat)
    requires c.partitions > 0
    ensures p < c.partitions
  {
    HashIndex(c, HashInput(c, m))
  }

  /** Which messages share a partition: under every hash exactly those hashed by the same bytes. */
  lemma SharedPartition(c: Config, a: Message, b: Message)
    requires c.partitions > 1
    ensures (forall hash: Bytes -> nat :: PartitionIndex(c.(hash := hash), a) == PartitionIndex(c.(hash := hash), b)) <==>
            HashInput(c, a) == HashInput(c, b)
  {
    hide HashInput;
    assert forall hash: Bytes -> nat, m :: HashInput(c.(hash := hash), m) == HashInput(c, m) by {
      HashInputIgnoresHash(c);
    }
    if HashInput(c, a) != HashInput(c, b) {
      var apart: Bytes -> nat := x => if x == HashInput(c, a) then 1 else 0;
      assert PartitionIndex(c.(hash := apart), a) != PartitionIndex(c.(hash := apart), b);
    }
  }

  lemma HashInputIgnoresHash(c: Config)
    ensures forall hash: Bytes -> nat, m :: HashInput(c.(hash := hash), m) == HashInput(c, m)
  {
  }

  function PriorityOf(c: Config, m: Message): Priority {
    if m.protocol in c.registry then c.registry[m.protocol].priority else c.defaultPriority(m.protocol)
  }

  datatype Queue = Queue(partition: nat, priority: Priority)

  function QueueOf(c: Config, m: Message): Queue
    requires c.partitions > 0
  {
    Queue(PartitionIndex(c, m), PriorityOf(c, m))
  }

  /** Messages of one protocol with one state key share a queue, whoever sent them. */
  predicate SameStateKey(c: Config, a: Message, b: Message) {
    && a.protocol == b.protocol && a.protocol in c.registry
    && var spec := c.registry[a.protocol];
    && spec.concurrency == StateKey
    && StateKeyOf(a, spec).Some? && StateKeyOf(a, spec) == StateKeyOf(b, spec)
  }

  // ----- The machine -----

  /** Where a worker stands; every position but the first holds the partition's claim. */
  datatype Worker =
    | Scanning
    | Claimed(partition: nat, priority: Priority)
    | Handling(partition: nat, priority: Priority, message: Message)
    | Releasing(partition: nat)

  datatype Event = Begin(priority: Priority, message: Message) | End(priority: Priority, message: Message)

  /** `accepted` is everything each queue ever took in; `waiting` is what is still in it; `trace` is what
      each partition has handled, as it happened. */
  datatype State = State(
    accepted: map<Queue, seq<Message>>,
    waiting: map<Queue, seq<Message>>,
    claims: set<nat>,
    workers: map<nat, Worker>,
    trace: map<nat, seq<Event>>)

  datatype Action =
    | Enqueue(message: Message)
    | Claim(w: nat, partition: nat, priority: Priority)
    | ReadJob(w: nat)
    | Finish(w: nat)
    | Release(w: nat)

  const START := State(map[], map[], {}, map[], map[])

  function Accepted(s: State, q: Queue): seq<Message> {
    if q in s.accepted then s.accepted[q] else []
  }

  function Waiting(s: State, q: Queue): seq<Message> {
    if q in s.waiting then s.waiting[q] else []
  }

  function Trace(s: State, p: nat): seq<Event> {
    if p in s.trace then s.trace[p] else []
  }

  function At(s: State, w: nat): Worker {
    if w in s.workers then s.workers[w] else Scanning
  }

  function BegunBy(e: Event, priority: Priority): seq<Message> {
    if e.Begin? && e.priority == priority then [e.message] else []
  }

  /** The messages of a priority whose handling the partition has begun, in the order it did. */
  function Begun(trace: seq<Event>, priority: Priority): seq<Message> {
    if trace == [] then []
    else Begun(trace[..|trace| - 1], priority) + BegunBy(trace[|trace| - 1], priority)
  }

  /** A full queue drops the message. */
  function Pushed(s: State, q: Queue, m: Message, capacity: nat): State {
    if |Waiting(s, q)| >= capacity then s
    else s.(accepted := s.accepted[q := Accepted(s, q) + [m]], waiting := s.waiting[q := Waiting(s, q) + [m]])
  }

  /** One step; an action that is not enabled changes nothing. A claim is a compare-and-swap; an
      empty queue makes the worker give the claim back. */
  function Step(c: Config, s: State, a: Action): State
    requires c.partitions > 0
  {
    match a
    case Enqueue(m) =>
      Pushed(s, QueueOf(c, m), m, c.capacity(PriorityOf(c, m)))
    case Claim(w, p, priority) =>
      if At(s, w).Scanning? && p < c.partitions && p !in s.claims then
        s.(claims := s.claims + {p}, workers := s.workers[w := Claimed(p, priority)])
      else s
    case ReadJob(w) =>
      if At(s, w).Claimed? then
        var p, priority := At(s, w).partition, At(s, w).priority;
        var q := Queue(p, priority);
        if Waiting(s, q) == [] then s.(workers := s.workers[w := Releasing(p)])
        else
          var m := Waiting(s, q)[0];
          s.(waiting := s.waiting[q := Waiting(s, q)[1..]],
             workers := s.workers[w := Handling(p, priority, m)],
             trace := s.trace[p := Trace(s, p) + [Begin(priority, m)]])
      else s
    case Finish(w) =>
      if At(s, w).Handling? then
        var h := At(s, w);
        s.(workers := s.workers[w := Releasing(h.partition)],
           trace := s.trace[h.partition := Trace(s, h.partition) + [End(h.priority, h.message)]])
      else s
    case Release(w) =>
      if At(s, w).Releasing? then
        s.(claims := s.claims - {At(s, w).partition}, workers := s.workers[w := Scanning])
      else s
  }

  function After(c: Config, actions: seq<Action>): State
    requires c.partitions > 0
  {
    if actions == [] then START else Step(c, After(c, actions[..|actions| - 1]), actions[|actions| - 1])
  }

  // ----- What every step keeps -----

  predicate Holds(p: Worker, partition: nat) {
    !p.Scanning? && p.partition == partition
  }

  ghost predicate ClaimSound(s: State, p: nat) {
    && (forall v, w :: Holds(At(s, v), p) && Holds(At(s, w), p) ==> v == w)
    && (forall w :: Holds(At(s, w), p) ==> p in s.claims)
  }

  /** Events come in pairs; an odd event out is the job some worker is handling now. */
  ghost predicate Paired(trace: seq<Event>) {
    forall i :: 0 <= i < |trace| ==> PairAt(trace, i)
  }

  predicate PairAt(trace: seq<Event>, i: nat)
    requires i < |trace|
  {
    if i % 2 == 0 then trace[i].Begin?
    else trace[i] == End(trace[i - 1].priority, trace[i - 1].message)
  }

  ghost predicate TraceSound(s: State, p: nat) {
    var t := Trace(s, p);
    && Paired(t)
    && (forall w :: At(s, w).Handling? && At(s, w).partition == p ==>
          |t| % 2 == 1 && t[|t| - 1] == Begin(At(s, w).priority, At(s, w).message))
    && (|t| % 2 == 1 ==> exists w :: At(s, w).Handling? && At(s, w).partition == p)
  }

  /** What was accepted is what was begun and then what waits, in the order it was accepted. */
  ghost predicate QueueSound(s: State, q: Queue) {
    Accepted(s, q) == Begun(Trace(s, q.partition), q.priority) + Waiting(s, q)
  }

  ghost predicate Sound(s: State) {
    && (forall p :: ClaimSound(s, p) && TraceSound(s, p))
    && (forall q :: QueueSound(s, q))
  }

  /** Nothing that belongs to partition `p` differs between the states. */
  ghost predicate SamePartition(s: State, t: State, p: nat) {
    && Trace(s, p) == Trace(t, p) && (p in s.claims <==> p in t.claims)
    && forall w :: Holds(At(s, w), p) || Holds(At(t, w), p) ==> At(s, w) == At(t, w)
  }

  lemma SamePartitionSound(s: State, t: State, p: nat)
    requires SamePartition(s, t, p) && ClaimSound(s, p) && TraceSound(s, p)
    ensures ClaimSound(t, p) && TraceSound(t, p)
  {
    forall w | Holds(At(t, w), p) ensures Holds(At(s, w), p) && At(s, w) == At(t, w) {
    }
    if |Trace(s, p)| % 2 == 1 {
      var w :| At(s, w).Handling? && At(s, w).partition == p;
      assert Holds(At(s, w), p);
      assert At(t, w).Handling? && At(t, w).partition == p;
    }
  }

  lemma PushKeepsPartition(s: State, t: State, p: nat)
    requires s.claims == t.claims && s.workers == t.workers && s.trace == t.trace
    requires ClaimSound(s, p) && TraceSound(s, p)
    ensures ClaimSound(t, p) && TraceSound(t, p)
  {
    assert forall v :: At(t, v) == At(s, v);
    SamePartitionSound(s, t, p);
  }

  lemma PushKeepsQueue(s: State, q: Queue, m: Message, capacity: nat, q': Queue)
    requires QueueSound(s, q')
    ensures QueueSound(Pushed(s, q, m, capacity), q')
  {
    hide Begun;
    var begun := Begun(Trace(s, q'.partition), q'.priority);
    assert begun + Waiting(s, q') + [m] == begun + (Waiting(s, q') + [m]);
  }

  lemma EnqueueSound(s: State, q: Queue, m: Message, capacity: nat)
    requires Sound(s)
    ensures Sound(Pushed(s, q, m, capacity))
  {
    var t := Pushed(s, q, m, capacity);
    forall p ensures ClaimSound(t, p) && TraceSound(t, p) {
      PushKeepsPartition(s, t, p);
    }
    forall q' ensures QueueSound(t, q') {
      PushKeepsQueue(s, q, m, capacity, q');
    }
  }

  /** Between the states only worker `w` and partition `p` changed. */
  ghost predicate Touches(s: State, t: State, w: nat, p: nat) {
    && (forall v :: v != w ==> At(t, v) == At(s, v))
    && (forall p' :: p' != p ==> Trace(t, p') == Trace(s, p') && (p' in t.claims <==> p' in s.claims))
    && (forall p' :: p' != p ==> !Holds(At(s, w), p') && !Holds(At(t, w), p'))
  }

  lemma OthersSound(s: State, t: State, w: nat, p: nat)
    requires Sound(s) && Touches(s, t, w, p) && ClaimSound(t, p) && TraceSound(t, p)
    ensures forall p' :: ClaimSound(t, p') && TraceSound(t, p')
  {
    hide ClaimSound, TraceSound, QueueSound, Trace, At, Holds;
    forall p' ensures ClaimSound(t, p') && TraceSound(t, p') {
      if p' != p {
        SamePartitionSound(s, t, p');
      }
    }
  }

  /** No worker but `w` holds the partition before or after. */
  ghost predicate OnlyHolder(s: State, w: nat, p: nat) {
    forall v :: v != w ==> !Holds(At(s, v), p)
  }

  lemma ClaimantIsOnly(s: State, w: nat, p: nat)
    requires ClaimSound(s, p) && (Holds(At(s, w), p) || p !in s.claims)
    ensures OnlyHolder(s, w, p)
  {
  }

  /** A partition with one holder is sound if the holder and the trace agree. */
  lemma HolderSound(s: State, t: State, w: nat, p: nat)
    requires OnlyHolder(s, w, p) && forall v :: v != w ==> At(t, v) == At(s, v)
    requires Holds(At(t, w), p) ==> p in t.claims
    requires Paired(Trace(t, p))
    requires var h, r := At(t, w), Trace(t, p);
             if h.Handling? && h.partition == p then |r| % 2 == 1 && r[|r| - 1] == Begin(h.priority, h.message) else |r| % 2 == 0
    ensures ClaimSound(t, p) && TraceSound(t, p)
  {
    hide At, Trace, Paired;
    assert forall v :: v != w ==> !Holds(At(t, v), p);
  }

  /** Traces untouched, so what waits is what waited. */
  lemma QueuesSame(s: State, t: State)
    requires Sound(s) && t.accepted == s.accepted && t.waiting == s.waiting && t.trace == s.trace
    ensures forall q :: QueueSound(t, q)
  {
    hide ClaimSound, TraceSound, Begun;
    forall q ensures QueueSound(t, q) {
      assert QueueSound(s, q);
    }
  }

  lemma UnclaimedIsQuiet(s: State, p: nat)
    requires ClaimSound(s, p) && TraceSound(s, p) && p !in s.claims
    ensures |Trace(s, p)| % 2 == 0
  {
    assert forall v :: At(s, v).Handling? && At(s, v).partition == p ==> Holds(At(s, v), p);
  }

  lemma ClaimStepSound(c: Config, s: State, w: nat, p: nat, priority: Priority)
    requires c.partitions > 0 && Sound(s) && At(s, w).Scanning? && p !in s.claims
    ensures Sound(Step(c, s, Claim(w, p, priority)))
  {
    hide Paired, QueueSound;
    var t := Step(c, s, Claim(w, p, priority));
    if p < c.partitions {
      assert ClaimSound(s, p) && TraceSound(s, p);
      UnclaimedIsQuiet(s, p);
      ClaimantIsOnly(s, w, p);
      HolderSound(s, t, w, p);
      OthersSound(s, t, w, p);
      QueuesSame(s, t);
    }
  }

  lemma PairedAppend(trace: seq<Event>, e: Event)
    requires Paired(trace)
    requires if |trace| % 2 == 0 then e.Begin? else e == End(trace[|trace| - 1].priority, trace[|trace| - 1].message)
    ensures Paired(trace + [e])
  {
    var t := trace + [e];
    forall i | 0 <= i < |t| ensures PairAt(t, i) {
      assert i < |trace| ==> PairAt(trace, i);
    }
  }

  lemma BegunAppend(trace: seq<Event>, e: Event, priority: Priority)
    ensures Begun(trace + [e], priority) == Begun(trace, priority) + BegunBy(e, priority)
  {
    assert (trace + [e])[..|trace|] == trace;
  }

  /** The holder of a claim that is not handling a job is witness that no job is being handled. */
  lemma NobodyHandles(s: State, w: nat, p: nat)
    requires ClaimSound(s, p) && TraceSound(s, p) && Holds(At(s, w), p) && !At(s, w).Handling?
    ensures |Trace(s, p)| % 2 == 0
    ensures forall v :: !(At(s, v).Handling? && At(s, v).partition == p)
  {
    forall v ensures !(At(s, v).Handling? && At(s, v).partition == p) {
      assert At(s, v).Handling? && At(s, v).partition == p ==> Holds(At(s, v), p);
    }
  }

  lemma ReadJobEffect(c: Config, s: State, t: State, w: nat)
    requires c.partitions > 0 && At(s, w).Claimed? && t == Step(c, s, ReadJob(w))
    requires Waiting(s, Queue(At(s, w).partition, At(s, w).priority)) != []
    ensures var p, priority := At(s, w).partition, At(s, w).priority;
            var m := Waiting(s, Queue(p, priority))[0];
            && Touches(s, t, w, p) && t.claims == s.claims && t.accepted == s.accepted
            && Trace(t, p) == Trace(s, p) + [Begin(priority, m)] && At(t, w) == Handling(p, priority, m)
            && forall q :: Waiting(t, q) == if q == Queue(p, priority) then Waiting(s, q)[1..] else Waiting(s, q)
  {
    hide Begun;
  }

  lemma ReadJobPartition(c: Config, s: State, t: State, w: nat)
    requires c.partitions > 0 && Sound(s) && At(s, w).Claimed? && t == Step(c, s, ReadJob(w))
    requires Waiting(s, Queue(At(s, w).partition, At(s, w).priority)) != []
    ensures ClaimSound(t, At(s, w).partition) && TraceSound(t, At(s, w).partition)
  {
    hide At, Trace, Step, Waiting, QueueSound, Begun, Paired;
    var p, priority := At(s, w).partition, At(s, w).priority;
    var begin := Begin(priority, Waiting(s, Queue(p, priority))[0]);
    ReadJobEffect(c, s, t, w);
    assert ClaimSound(s, p) && TraceSound(s, p) && Holds(At(s, w), p);
    NobodyHandles(s, w, p);
    PairedAppend(Trace(s, p), begin);
    ClaimantIsOnly(s, w, p);
    HolderSound(s, t, w, p);
  }

  lemma ReadJobQueue(c: Config, s: State, t: State, w: nat, q: Queue)
    requires c.partitions > 0 && Sound(s) && At(s, w).Claimed? && t == Step(c, s, ReadJob(w))
    requires Waiting(s, Queue(At(s, w).partition, At(s, w).priority)) != []
    ensures QueueSound(t, q)
  {
    hide At, Trace, Step, Waiting, ClaimSound, TraceSound, Begun;
    var p, priority := At(s, w).partition, At(s, w).priority;
    ReadJobEffect(c, s, t, w);
    assert QueueSound(s, q);
    BegunAppend(Trace(s, p), Begin(priority, Waiting(s, Queue(p, priority))[0]), q.priority);
    assert Accepted(t, q) == Accepted(s, q);
    if q == Queue(p, priority) {
      assert Waiting(s, q) == [Waiting(s, q)[0]] + Waiting(t, q);
    }
  }

  lemma ReadJobSound(c: Config, s: State, w: nat)
    requires c.partitions > 0 && Sound(s) && At(s, w).Claimed?
    requires Waiting(s, Queue(At(s, w).partition, At(s, w).priority)) != []
    ensures Sound(Step(c, s, ReadJob(w)))
  {
    hide At, Trace, Step, Waiting, QueueSound, ClaimSound, TraceSound, Begun;
    var t := Step(c, s, ReadJob(w));
    ReadJobEffect(c, s, t, w);
    ReadJobPartition(c, s, t, w);
    OthersSound(s, t, w, At(s, w).partition);
    forall q ensures QueueSound(t, q) {
      ReadJobQueue(c, s, t, w, q);
    }
  }

  lemma EmptyReadSound(s: State, w: nat)
    requires Sound(s) && At(s, w).Claimed?
    ensures Sound(s.(workers := s.workers[w := Releasing(At(s, w).partition)]))
  {
    hide Paired, QueueSound;
    var t, p := s.(workers := s.workers[w := Releasing(At(s, w).partition)]), At(s, w).partition;
    assert ClaimSound(s, p) && TraceSound(s, p) && Holds(At(s, w), p);
    NobodyHandles(s, w, p);
    ClaimantIsOnly(s, w, p);
    HolderSound(s, t, w, p);
    OthersSound(s, t, w, p);
    QueuesSame(s, t);
  }

  lemma FinishEffect(c: Config, s: State, t: State, w: nat)
    requires c.partitions > 0 && At(s, w).Handling? && t == Step(c, s, Finish(w))
    ensures var h := At(s, w); var p := h.partition;
            && Touches(s, t, w, p) && t.claims == s.claims && t.accepted == s.accepted && t.waiting == s.waiting
            && Trace(t, p) == Trace(s, p) + [End(h.priority, h.message)] && At(t, w) == Releasing(p)
  {
  }

  lemma FinishSound(c: Config, s: State, w: nat)
    requires c.partitions > 0 && Sound(s) && At(s, w).Handling?
    ensures Sound(Step(c, s, Finish(w)))
  {
    hide At, Trace, Step, Begun, Paired;
    var t, h := Step(c, s, Finish(w)), At(s, w);
    var p, end := h.partition, End(h.priority, h.message);
    FinishEffect(c, s, t, w);
    assert ClaimSound(s, p) && TraceSound(s, p) && Holds(At(s, w), p);
    PairedAppend(Trace(s, p), end);
    ClaimantIsOnly(s, w, p);
    HolderSound(s, t, w, p);
    OthersSound(s, t, w, p);
    forall q ensures QueueSound(t, q) {
      assert QueueSound(s, q);
      BegunAppend(Trace(s, p), end, q.priority);
      assert Accepted(t, q) == Accepted(s, q) && Waiting(t, q) == Waiting(s, q);
    }
  }

  lemma ReleaseSound(c: Config, s: State, w: nat)
    requires c.partitions > 0 && Sound(s) && At(s, w).Releasing?
    ensures Sound(Step(c, s, Release(w)))
  {
    hide Paired, QueueSound;
    var t, p := Step(c, s, Release(w)), At(s, w).partition;
    assert ClaimSound(s, p) && TraceSound(s, p) && Holds(At(s, w), p);
    NobodyHandles(s, w, p);
    ClaimantIsOnly(s, w, p);
    HolderSound(s, t, w, p);
    OthersSound(s, t, w, p);
    QueuesSame(s, t);
  }

  lemma StepSound(c: Config, s: State, a: Action)
    requires c.partitions > 0 && Sound(s)
    ensures Sound(Step(c, s, a))
  {
    match a
    case Enqueue(m) => EnqueueSound(s, QueueOf(c, m), m, c.capacity(PriorityOf(c, m)));
    case Claim(w, p, priority) => if At(s, w).Scanning? && p < c.partitions && p !in s.claims { ClaimStepSound(c, s, w, p, priority); }
    case ReadJob(w) =>
      if At(s, w).Claimed? {
        if Waiting(s, Queue(At(s, w).partition, At(s, w).priority)) == [] {
          EmptyReadSound(s, w);
        } else {
          ReadJobSound(c, s, w);
        }
      }
    case Finish(w) => if At(s, w).Handling? { FinishSound(c, s, w); }
    case Release(w) => if At(s, w).Releasing? { ReleaseSound(c, s, w); }
  }

  lemma {:induction false} AfterSound(c: Config, actions: seq<Action>)
    requires c.partitions > 0
    ensures Sound(After(c, actions))
  {
    if actions != [] {
      AfterSound(c, actions[..|actions| - 1]);
      StepSound(c, After(c, actions[..|actions| - 1]), actions[|actions| - 1]);
    }
  }

  /** At most one job of a partition is being handled, after every interleaving. */
  lemma OneJobPerPartition(c: Config, actions: seq<Action>, v: nat, w: nat)
    requires c.partitions > 0
    requires var s := After(c, actions);
             At(s, v).Handling? && At(s, w).Handling? && At(s, v).partition == At(s, w).partition
    ensures v == w
  {
    AfterSound(c, actions);
    var s := After(c, actions);
    assert ClaimSound(s, At(s, v).partition);
    assert Holds(At(s, v), At(s, v).partition) && Holds(At(s, w), At(s, v).partition);
  }

  // ----- Order -----

  /** Event `j` begins job number `n` of its priority. */
  predicate IsJob(t: seq<Event>, j: nat, priority: Priority, n: nat) {
    j < |t| && t[j].Begin? && t[j].priority == priority && |Begun(t[..j], priority)| == n
  }

  /** Job `n` was the handling of `m`, and it had ended before event `j`. */
  ghost predicate EndedBefore(t: seq<Event>, priority: Priority, n: nat, m: Message, j: nat) {
    exists i: nat :: i + 1 < j <= |t| && IsJob(t, i, priority, n) && t[i].message == m && t[i + 1] == End(priority, m)
  }

  lemma {:induction false} BegunPrefix(t: seq<Event>, priority: Priority, j: nat)
    requires j <= |t|
    ensures Begun(t[..j], priority) <= Begun(t, priority)
  {
    if j == |t| {
      assert t[..j] == t;
    } else {
      assert t[..|t| - 1][..j] == t[..j];
      BegunPrefix(t[..|t| - 1], priority, j);
    }
  }

  /** Every begun message was begun by some event, under its number. */
  lemma {:induction false} JobOf(t: seq<Event>, priority: Priority, n: nat) returns (i: nat)
    requires n < |Begun(t, priority)|
    ensures IsJob(t, i, priority, n) && t[i].message == Begun(t, priority)[n]
  {
    var last := |t| - 1;
    if n < |Begun(t[..last], priority)| {
      i := JobOf(t[..last], priority, n);
      assert t[..last][..i] == t[..i];
    } else {
      i := last;
    }
  }

  /** The event that begins job `n` begins the `n`th of the begun messages. */
  lemma JobMessage(t: seq<Event>, j: nat, priority: Priority, n: nat)
    requires IsJob(t, j, priority, n)
    ensures j < |t| && n < |Begun(t, priority)| && t[j].message == Begun(t, priority)[n]
  {
    hide Begun;
    assert t[..j + 1] == t[..j] + [t[j]];
    BegunAppend(t[..j], t[j], priority);
    BegunPrefix(t, priority, j + 1);
  }

  lemma EarlierJobEnded(t: seq<Event>, priority: Priority, m: nat, n: nat, j: nat)
    requires Paired(t) && m < n && IsJob(t, j, priority, n)
    ensures m < |Begun(t, priority)| && EndedBefore(t, priority, m, Begun(t, priority)[m], j)
  {
    hide Begun;
    var i := JobOf(t[..j], priority, m);
    assert t[..j][..i] == t[..i];
    assert PairAt(t, j) && PairAt(t, i) && PairAt(t, i + 1);
    assert t[i + 1] == End(priority, t[i].message);
    BegunPrefix(t, priority, j);
  }

  /** Queue order, after every interleaving: what was begun for a queue, in the order it was begun, is the first
      part of what the queue accepted, and what waits is the rest; the job that begins as number `n` is the
      `n`th accepted message, and every message accepted before it has been handled to the end. */
  lemma HandledInQueueOrder(c: Config, actions: seq<Action>, q: Queue)
    requires c.partitions > 0
    ensures var s := After(c, actions);
            var t := Trace(s, q.partition);
            && Accepted(s, q) == Begun(t, q.priority) + Waiting(s, q)
            && forall n: nat, j: nat :: IsJob(t, j, q.priority, n) ==>
                 && n < |Accepted(s, q)| && t[j].message == Accepted(s, q)[n]
                 && forall m: nat :: m < n ==> EndedBefore(t, q.priority, m, Accepted(s, q)[m], j)
  {
    hide Begun, EndedBefore, After, IsJob, Accepted, Waiting, Trace;
    AfterSound(c, actions);
    var s := After(c, actions);
    var t := Trace(s, q.partition);
    assert TraceSound(s, q.partition) && QueueSound(s, q);
    forall n: nat, j: nat | IsJob(t, j, q.priority, n)
      ensures j < |t| && n < |Accepted(s, q)| && t[j].message == Accepted(s, q)[n]
      ensures forall m: nat :: m < n ==> EndedBefore(t, q.priority, m, Accepted(s, q)[m], j)
    {
      JobMessage(t, j, q.priority, n);
      forall m: nat | m < n ensures EndedBefore(t, q.priority, m, Accepted(s, q)[m], j) {
        EarlierJobEnded(t, q.priority, m, n, j);
      }
    }
  }

  // ----- From the enqueue to the trace -----

  lemma StepAccepts(c: Config, s: State, a: Action, q: Queue)
    requires c.partitions > 0
    ensures Accepted(s, q) <= Accepted(Step(c, s, a), q)
  {
    hide QueueOf, At, Trace, Waiting;
  }

  lemma {:induction false} AcceptedGrows(c: Config, actions: seq<Action>, k: nat, q: Queue)
    requires c.partitions > 0 && k <= |actions|
    ensures Accepted(After(c, actions[..k]), q) <= Accepted(After(c, actions), q)
  {
    hide Step, Accepted;
    if k == |actions| {
      assert actions[..k] == actions;
    } else {
      assert actions[..|actions| - 1][..k] == actions[..k];
      StepAccepts(c, After(c, actions[..|actions| - 1]), actions[|actions| - 1], q);
      AcceptedGrows(c, actions[..|actions| - 1], k, q);
    }
  }

  /** Action `x` enqueues `m` into a queue with room. */
  predicate Enqueues(c: Config, actions: seq<Action>, x: nat, m: Message)
    requires c.partitions > 0
  {
    x < |actions| && actions[x] == Enqueue(m) &&
    |Waiting(After(c, actions[..x]), QueueOf(c, m))| < c.capacity(PriorityOf(c, m))
  }

  /** The number an enqueued message gets: how many its queue had accepted before. */
  function NumberOf(c: Config, actions: seq<Action>, x: nat, m: Message): nat
    requires c.partitions > 0 && x <= |actions|
  {
    |Accepted(After(c, actions[..x]), QueueOf(c, m))|
  }

  lemma EnqueuedIsAccepted(c: Config, actions: seq<Action>, x: nat, m: Message, y: nat)
    requires c.partitions > 0 && Enqueues(c, actions, x, m) && x < y <= |actions|
    ensures NumberOf(c, actions, x, m) < NumberOf(c, actions, y, m)
    ensures Accepted(After(c, actions[..y]), QueueOf(c, m))[NumberOf(c, actions, x, m)] == m
  {
    hide QueueOf;
    var q := QueueOf(c, m);
    assert actions[..x + 1][..x] == actions[..x] && actions[..y][..x + 1] == actions[..x + 1];
    assert After(c, actions[..x + 1]) == Step(c, After(c, actions[..x]), actions[x]);
    AcceptedGrows(c, actions[..y], x + 1, q);
  }

  /** Messages of one protocol with the same non-empty state key never overlap or reorder: if `a` was enqueued
      before `b`, then wherever the job of `b` begins, `b` is what it handles, and `a` was begun and ended before. */
  lemma StateKeyKeepsOrder(c: Config, actions: seq<Action>, a: Message, x: nat, b: Message, y: nat, j: nat)
    requires c.partitions > 0 && SameStateKey(c, a, b) && x < y
    requires Enqueues(c, actions, x, a) && Enqueues(c, actions, y, b)
    requires var q := QueueOf(c, b);
             IsJob(Trace(After(c, actions), q.partition), j, q.priority, NumberOf(c, actions, y, b))
    ensures QueueOf(c, a) == QueueOf(c, b)
    ensures var q := QueueOf(c, a);
            var t := Trace(After(c, actions), q.partition);
            && j < |t| && t[j] == Begin(q.priority, b)
            && EndedBefore(t, q.priority, NumberOf(c, actions, x, a), a, j)
  {
    SameStateKeySameQueue(c, a, b);
    hide *;
    var q := QueueOf(c, b);
    assert actions[..|actions|] == actions;
    HandledInQueueOrder(c, actions, q);
    EnqueuedIsAccepted(c, actions, x, a, y);
    EnqueuedIsAccepted(c, actions, x, a, |actions|);
    EnqueuedIsAccepted(c, actions, y, b, |actions|);
  }

  lemma SameStateKeySameQueue(c: Config, a: Message, b: Message)
    requires c.partitions > 0 && SameStateKey(c, a, b)
    ensures QueueOf(c, a) == QueueOf(c, b)
  {
  }
}
