/** Where the dispatcher sends a message, in terms of sender, protocol and keys, and what its queues hold. */
module DispatchRouting {

  import opened Bytes
  import opened Dispatcher
  import opened Wrappers

  // ----- Text -----

  predicate SameLetter(x: Byte, y: Byte) {
    x == y || (65 <= x <= 90 && y == x + 32) || (65 <= y <= 90 && x == y + 32)
  }

  /** Equal but for the case of ASCII letters. */
  predicate EqualFold(s: Bytes, t: Bytes) {
    |s| == |t| && forall i :: 0 <= i < |s| ==> SameLetter(s[i], t[i])
  }

  lemma LowerIsFold(s: Bytes, t: Bytes)
    ensures Lower(s) == Lower(t) <==> EqualFold(s, t)
  {
    if Lower(s) == Lower(t) {
      assert |Lower(s)| == |Lower(t)|;
      forall i | 0 <= i < |s| ensures SameLetter(s[i], t[i]) {
        assert Lower(s)[i] == Lower(t)[i];
      }
    }
  }

  lemma LowerTwice(s: Bytes)
    ensures Lower(Lower(s)) == Lower(s)
  {
  }

  predicate White(b: Byte) {
    b == 32 || b in {9, 10, 11, 12, 13}
  }

  predicate AllWhite(s: Bytes) {
    forall i :: 0 <= i < |s| ==> White(s[i])
  }

  /** `text` is what stands between the white space at the two ends. */
  predicate Stripped(raw: Bytes, before: Bytes, text: Bytes, after: Bytes) {
    && raw == before + text + after && AllWhite(before) && AllWhite(after)
    && (text != [] ==> !White(text[0]) && !White(text[|text| - 1]))
  }

  lemma {:induction false} TrimLeftDrops(before: Bytes, rest: Bytes)
    requires AllWhite(before) && (rest != [] ==> !White(rest[0]))
    ensures TrimLeft(before + rest) == rest
  {
    if before == [] {
      assert before + rest == rest;
    } else {
      assert (before + rest)[1..] == before[1..] + rest;
      TrimLeftDrops(before[1..], rest);
    }
  }

  lemma {:induction false} TrimRightDrops(rest: Bytes, after: Bytes)
    requires AllWhite(after) && (rest != [] ==> !White(rest[|rest| - 1]))
    ensures TrimRight(rest + after) == rest
  {
    if after == [] {
      assert rest + after == rest;
    } else {
      assert (rest + after)[..|rest + after| - 1] == rest + after[..|after| - 1];
      TrimRightDrops(rest, after[..|after| - 1]);
    }
  }

  lemma TrimIsStripped(raw: Bytes, before: Bytes, text: Bytes, after: Bytes)
    requires Stripped(raw, before, text, after)
    ensures Trim(raw) == text
  {
    hide TrimLeft, TrimRight;
    if text == [] {
      assert raw == (before + after) + [] && AllWhite(before + after);
      TrimLeftDrops(before + after, []);
      assert TrimRight([] + []) == [] by {
        TrimRightDrops([], []);
      }
      assert [] + [] == raw[..0];
    } else {
      assert raw == before + (text + after);
      TrimLeftDrops(before, text + after);
      TrimRightDrops(text, after);
    }
  }

  // ----- Who shares a partition -----

  /** Whatever the hash, the two messages go to one partition. */
  ghost predicate AlwaysTogether(c: Config, a: Message, b: Message)
    requires c.partitions > 0
  {
    forall hash: Bytes -> nat :: PartitionIndex(c.(hash := hash), a) == PartitionIndex(c.(hash := hash), b)
  }

  lemma SameEnd(x: Bytes, y: Bytes, end: Bytes)
    ensures x + end == y + end <==> x == y
  {
    if x + end == y + end {
      assert |x| == |y|;
      assert x == (x + end)[..|x|] && y == (y + end)[..|y|];
    }
  }

  lemma SameParts(x: Bytes, y: Bytes, mid: Bytes, s: Bytes, t: Bytes)
    requires |x| == |y|
    ensures x + mid + s == y + mid + t <==> x == y && s == t
  {
    if x + mid + s == y + mid + t {
      assert x == (x + mid + s)[..|x|] && y == (y + mid + t)[..|y|];
      assert s == (x + mid + s)[|x + mid|..] && t == (y + mid + t)[|y + mid|..];
    }
  }

  /** Messages of an ordered or unregistered protocol stay together by sender. */
  lemma OrderedBySender(c: Config, a: Message, b: Message)
    requires c.partitions > 1 && a.protocol == b.protocol
    requires a.protocol in c.registry ==> c.registry[a.protocol].concurrency == Ordered
    ensures AlwaysTogether(c, a, b) <==> a.from == b.from
  {
    hide ProtocolBytes;
    SharedPartition(c, a, b);
    SameEnd(a.from, b.from, ProtocolBytes(a.protocol));
  }

  /** The request a message answers, or its own identifier. */
  predicate IsShard(m: Message, key: Bytes) {
    if m.request.None? || m.request == Some([]) then key == m.id else m.request == Some(key)
  }

  /** Messages of a stateless protocol, from senders whose names have one length, stay together by sender and request. */
  lemma StatelessBySenderAndRequest(c: Config, a: Message, b: Message, s: Bytes, t: Bytes)
    requires c.partitions > 1 && a.protocol == b.protocol && a.protocol in c.registry && |a.from| == |b.from|
    requires c.registry[a.protocol].concurrency == Stateless && IsShard(a, s) && IsShard(b, t)
    ensures AlwaysTogether(c, a, b) <==> a.from == b.from && EqualFold(s, t)
  {
    hide ProtocolBytes, Lower, EqualFold;
    SharedPartition(c, a, b);
    LowerIsFold(s, t);
    SameParts(a.from, b.from, ProtocolBytes(a.protocol), Lower(s), Lower(t));
  }

  /** The state key of a message reads `text`. */
  ghost predicate HasStateKey(c: Config, m: Message, text: Bytes) {
    && m.protocol in c.registry && c.registry[m.protocol].concurrency == StateKey
    && var raw := c.registry[m.protocol].partitionKey(m);
    && raw.Some? && text != [] && exists before, after :: Stripped(raw.value, before, text, after)
  }

  lemma StateKeyReads(c: Config, m: Message, text: Bytes)
    requires HasStateKey(c, m, text)
    ensures StateKeyOf(m, c.registry[m.protocol]) == Some(Lower(text))
  {
    hide Trim;
    var raw := c.registry[m.protocol].partitionKey(m).value;
    var before, after :| Stripped(raw, before, text, after);
    TrimIsStripped(raw, before, text, after);
  }

  /** Messages with a state key stay together by that key, whoever sent them: as `Dispatcher.SameStateKey` says. */
  lemma StateKeyTogether(c: Config, a: Message, b: Message, s: Bytes, t: Bytes)
    requires c.partitions > 1 && a.protocol == b.protocol && HasStateKey(c, a, s) && HasStateKey(c, b, t)
    ensures AlwaysTogether(c, a, b) <==> EqualFold(s, t)
    ensures SameStateKey(c, a, b) <==> EqualFold(s, t)
  {
    hide ProtocolBytes, Lower, EqualFold, HasStateKey, StateKeyOf;
    SharedPartition(c, a, b);
    RegisteredKey(c, a, s);
    StateKeyReads(c, a, s);
    StateKeyReads(c, b, t);
    LowerIsFold(s, t);
    LowerTwice(s);
    LowerTwice(t);
    SameFront(ProtocolBytes(a.protocol), Lower(s), Lower(t));
  }

  lemma RegisteredKey(c: Config, m: Message, text: Bytes)
    requires HasStateKey(c, m, text)
    ensures m.protocol in c.registry && c.registry[m.protocol].concurrency == StateKey
  {
  }

  lemma SameFront(front: Bytes, s: Bytes, t: Bytes)
    ensures front + s == front + t <==> s == t
  {
    if front + s == front + t {
      assert s == (front + s)[|front|..] && t == (front + t)[|front|..];
    }
  }

  // ----- What the queues hold -----

  /** The registered priority of a protocol, or its default. */
  predicate HasPriority(c: Config, m: Message, p: Priority) {
    (m.protocol in c.registry && c.registry[m.protocol].priority == p) || (m.protocol !in c.registry && c.defaultPriority(m.protocol) == p)
  }

  /** A message is appended to one queue of its priority if that has room, and dropped otherwise. */
  lemma EnqueuedIfRoom(c: Config, s: State, m: Message, q: Queue)
    requires c.partitions > 0
    ensures var t, own := Step(c, s, Enqueue(m)), QueueOf(c, m);
            && own.partition < c.partitions && HasPriority(c, m, own.priority)
            && (q != own ==> Waiting(t, q) == Waiting(s, q))
            && Waiting(t, own) == if |Waiting(s, own)| < c.capacity(own.priority) then Waiting(s, own) + [m] else Waiting(s, own)
  {
    hide PartitionIndex;
  }

  lemma WaitingStep(c: Config, s: State, a: Action, q: Queue)
    requires c.partitions > 0 && |Waiting(s, q)| <= c.capacity(q.priority)
    ensures |Waiting(Step(c, s, a), q)| <= c.capacity(q.priority)
  {
    hide QueueOf, PriorityOf;
    if a.Enqueue? {
      EnqueuedIfRoom(c, s, a.message, q);
    }
  }

  /** Over every interleaving no queue holds more than its priority allows. */
  lemma {:induction false} NeverOverfull(c: Config, actions: seq<Action>, q: Queue)
    requires c.partitions > 0
    ensures |Waiting(After(c, actions), q)| <= c.capacity(q.priority)
  {
    hide Step;
    if actions != [] {
      NeverOverfull(c, actions[..|actions| - 1], q);
      WaitingStep(c, After(c, actions[..|actions| - 1]), actions[|actions| - 1], q);
    }
  }
}
