/** Cursor paging over a prefix, forwards and backwards. */
module Paging {

  import opened Bytes
  import opened Wrappers
  import opened KeyCodec

  /** The engine's contents: encoded key to value. */
  type Store = map<Bytes, Bytes>

  ghost predicate Encoded(store: Store) {
    forall k :: k in store ==> exists t, key :: k == EncodeKey(t, key)
  }

  /** What an iterator bounded to the prefix runs over, in ascending order. */
  function View(store: Store, table: TableCode, prefix: Bytes): seq<Bytes> {
    Sorted(set k | k in store && Within(PrefixBounds(table, prefix), k))
  }

  /** The position of the first key at or above `key`. */
  function SeekGE(view: seq<Bytes>, key: Bytes): nat {
    if view == [] || !Less(view[0], key) then 0 else 1 + SeekGE(view[1..], key)
  }

  /** The position of the last key below `key`, or -1. */
  function SeekLT(view: seq<Bytes>, key: Bytes): int {
    SeekGE(view, key) - 1
  }

  lemma {:induction false} SeekSplits(view: seq<Bytes>, key: Bytes)
    requires StrictlyAscending(view)
    ensures SeekGE(view, key) <= |view|
    ensures forall i :: 0 <= i < |view| ==> (Less(view[i], key) <==> i < SeekGE(view, key))
  {
    if view != [] && Less(view[0], key) {
      SeekSplits(view[1..], key);
      forall i | 0 <= i < |view| ensures Less(view[i], key) <==> i < SeekGE(view, key) {
        if i > 0 {
          assert view[i] == view[1..][i - 1];
        }
      }
    } else if view != [] {
      forall i | 0 <= i < |view| ensures !Less(view[i], key) {
        if i > 0 && Less(view[i], key) {
          LessTransitive(view[0], view[i], key);
        }
      }
    }
  }

  lemma SeekFinds(view: seq<Bytes>, n: nat)
    requires StrictlyAscending(view) && n < |view|
    ensures SeekGE(view, view[n]) == n
  {
    assert n > 0 ==> Less(view[n - 1], view[n]);
    SeekSplits(view, view[n]);
    LessIrreflexive(view[n]);
  }

  /** Past the first key at or above `key`, and past it too when it equals `key`, everything is above `key`. */
  lemma SkipEqual(view: seq<Bytes>, key: Bytes)
    requires StrictlyAscending(view)
    ensures var n := SeekGE(view, key);
            var m := if n < |view| && view[n] == key then n + 1 else n;
            forall i :: 0 <= i < |view| ==> (Less(key, view[i]) <==> m <= i)
  {
    hide Less, SeekGE;
    SeekSplits(view, key);
    LessIrreflexive(key);
    forall i | 0 <= i < |view| ensures view[i] == key ==> i == SeekGE(view, key) {
      if view[i] == key {
        SeekFinds(view, i);
      }
    }
    var n := SeekGE(view, key);
    var m := if n < |view| && view[n] == key then n + 1 else n;
    forall i | 0 <= i < |view| ensures Less(key, view[i]) <==> m <= i {
      if Less(view[i], key) {
        LessAsymmetric(view[i], key);
      } else {
        LessTotal(view[i], key);
      }
    }
  }

  lemma {:induction false} SeekPastAll(view: seq<Bytes>, key: Bytes)
    requires forall i :: 0 <= i < |view| ==> Less(view[i], key)
    ensures SeekGE(view, key) == |view|
  {
    if view != [] {
      SeekPastAll(view[1..], key);
    }
  }

  datatype Page = Page(data: seq<Bytes>, lastKey: Option<Bytes>, isLastPage: bool)

  /** What the caller sees of an entry: its bare key or its value. */
  function Item(store: Store, keysOnly: bool, k: Bytes): Bytes {
    if keysOnly then StripTablePrefix(k) else if k in store then store[k] else []
  }

  function Items(store: Store, keysOnly: bool, keys: seq<Bytes>): seq<Bytes> {
    seq(|keys|, i requires 0 <= i < |keys| => Item(store, keysOnly, keys[i]))
  }

  function Reversed(s: seq<Bytes>): seq<Bytes> {
    seq(|s|, i requires 0 <= i < |s| => s[|s| - 1 - i])
  }

  function Directed(view: seq<Bytes>, reverse: bool): seq<Bytes> {
    if reverse then Reversed(view) else view
  }

  /** The keys in the order a query visits them. */
  function Traversal(store: Store, table: TableCode, prefix: Bytes, reverse: bool): seq<Bytes> {
    Directed(View(store, table, prefix), reverse)
  }

  lemma ItemsSplit(store: Store, keysOnly: bool, t: seq<Bytes>, n: nat, m: nat)
    requires n <= m <= |t|
    ensures Items(store, keysOnly, t[..n]) + Items(store, keysOnly, t[n..m]) == Items(store, keysOnly, t[..m])
  {
    assert t[..m] == t[..n] + t[n..m];
  }

  /** `k` comes after the cursor in the direction of travel; without a cursor everything does. */
  predicate Past(table: TableCode, lastKey: Option<Bytes>, reverse: bool, k: Bytes) {
    lastKey.Some? ==>
      if reverse then Less(k, EncodeKey(table, lastKey.value)) else Less(EncodeKey(table, lastKey.value), k)
  }

  /** How many leading entries of a traversal the cursor has left behind, whether or not it names one of them. */
  function ResumePoint(t: seq<Bytes>, table: TableCode, lastKey: Option<Bytes>, reverse: bool): nat {
    if t == [] || Past(table, lastKey, reverse, t[0]) then 0 else 1 + ResumePoint(t[1..], table, lastKey, reverse)
  }

  /** The resume point is the only split with everything before it visited and everything from it on not. */
  lemma {:induction false} ResumePointUnique(
    t: seq<Bytes>, table: TableCode, lastKey: Option<Bytes>, reverse: bool, n: nat)
    requires n <= |t|
    requires forall i :: 0 <= i < |t| ==> (Past(table, lastKey, reverse, t[i]) <==> n <= i)
    ensures ResumePoint(t, table, lastKey, reverse) == n
  {
    hide Past;
    if n > 0 {
      assert !Past(table, lastKey, reverse, t[0]);
      ResumePointUnique(t[1..], table, lastKey, reverse, n - 1);
    }
  }

  /** Resuming from an entry of the traversal continues with the entry after it. */
  lemma ResumesAfter(view: seq<Bytes>, table: TableCode, reverse: bool, n: nat)
    requires StrictlyAscending(view) && n < |view|
    requires var t := Directed(view, reverse); t[n] == EncodeKey(table, StripTablePrefix(t[n]))
    ensures var t := Directed(view, reverse);
            ResumePoint(t, table, Some(StripTablePrefix(t[n])), reverse) == n + 1
  {
    hide EncodeKey, StripTablePrefix, Less;
    var t := Directed(view, reverse);
    var cursor := Some(StripTablePrefix(t[n]));
    LessIrreflexive(t[n]);
    forall i | 0 <= i < |t| ensures Past(table, cursor, reverse, t[i]) <==> n + 1 <= i {
      if i < n {
        if reverse {
          LessAsymmetric(t[n], t[i]);
        } else {
          LessAsymmetric(t[i], t[n]);
        }
      }
    }
    ResumePointUnique(t, table, cursor, reverse, n + 1);
  }

  /** The starting position: the first entry past the cursor, in the direction of travel. */
  method Position(view: seq<Bytes>, table: TableCode, upper: Option<Bytes>, lastKey: Option<Bytes>, reverse: bool)
    returns (position: int)
    requires StrictlyAscending(view)
    requires upper.Some? ==> forall i :: 0 <= i < |view| ==> Less(view[i], upper.value)
    ensures var n := ResumePoint(Directed(view, reverse), table, lastKey, reverse);
            && n <= |view|
            && position == if reverse then |view| - 1 - n else n
  {
    hide EncodeKey, Less, SeekGE;
    if reverse {
      if lastKey.Some? {
        position := SeekLT(view, EncodeKey(table, lastKey.value));
        SeekSplits(view, EncodeKey(table, lastKey.value));
      } else if upper.None? {
        position := |view| - 1;
      } else {
        SeekPastAll(view, upper.value);
        position := SeekLT(view, upper.value);
      }
      ResumePointUnique(Directed(view, reverse), table, lastKey, reverse, |view| - 1 - position);
      return;
    }
    if lastKey.None? {
      return 0;
    }
    position := SeekGE(view, EncodeKey(table, lastKey.value));
    SeekSplits(view, EncodeKey(table, lastKey.value));
    SkipEqual(view, EncodeKey(table, lastKey.value));
    if position < |view| && view[position] == EncodeKey(table, lastKey.value) {
      position := position + 1;
    }
    ResumePointUnique(view, table, lastKey, reverse, position);
  }

  lemma ViewFacts(store: Store, table: TableCode, prefix: Bytes)
    requires Encoded(store)
    ensures StrictlyAscending(View(store, table, prefix))
    ensures var upper := PrefixBounds(table, prefix).1;
            var view := View(store, table, prefix);
            upper.Some? ==> forall i :: 0 <= i < |view| ==> Less(view[i], upper.value)
    ensures var view := View(store, table, prefix);
            forall i :: 0 <= i < |view| ==> view[i] == EncodeKey(table, StripTablePrefix(view[i]))
  {
    var view := View(store, table, prefix);
    forall i | 0 <= i < |view|
      ensures Within(PrefixBounds(table, prefix), view[i])
      ensures view[i] == EncodeKey(table, StripTablePrefix(view[i]))
    {
      var k := view[i];
      assert k in view;
      var t, key :| k == EncodeKey(t, key);
      PrefixBoundsExact(table, prefix, t, key);
      EncodeRoundTrip(t, key, t, key);
    }
  }

  function PageEnd(n: nat, pageSize: nat, length: nat): nat {
    if n + pageSize < length then n + pageSize else length
  }

  /** The iteration: from a position, collect items until the page is full or the iterator ends. */
  method Collect(store: Store, keysOnly: bool, view: seq<Bytes>, reverse: bool, start: int, pageSize: nat, ghost n: nat)
    returns (data: seq<Bytes>, last: Option<Bytes>, ok: bool)
    requires pageSize > 0 && n <= |view|
    requires start == if reverse then |view| - 1 - n else n
    ensures var t := Directed(view, reverse);
            var m := PageEnd(n, pageSize, |t|);
            && data == Items(store, keysOnly, t[n..m])
            && (ok <==> m < |t|)
            && last == if m == n then None else Some(StripTablePrefix(t[m - 1]))
  {
    hide StripTablePrefix, Item;
    ghost var t := Directed(view, reverse);
    var position := start;
    data, last := [], None;
    while 0 <= position < |view| && |data| < pageSize
      invariant n + |data| <= |t|
      invariant position == if reverse then |view| - 1 - n - |data| else n + |data|
      invariant |data| <= pageSize
      invariant forall i :: 0 <= i < |data| ==> data[i] == Item(store, keysOnly, t[n + i])
      invariant last == if data == [] then None else Some(StripTablePrefix(t[n + |data| - 1]))
      decreases pageSize - |data|
    {
      var key := view[position];
      assert key == t[n + |data|];
      data := data + [Item(store, keysOnly, key)];
      last := Some(StripTablePrefix(key));
      position := if reverse then position - 1 else position + 1;
    }
    ok := 0 <= position < |view|;
  }

  /** One page, from any cursor: the first `pageSize` entries past it, and the key to resume from. */
  method ReadPage(
    store: Store, table: TableCode, prefix: Bytes, pageSize: int, lastKey: Option<Bytes>, keysOnly: bool,
    reverse: bool)
    returns (page: Page)
    requires Encoded(store)
    ensures pageSize <= 0 ==> page == Page([], None, true)
    ensures pageSize > 0 ==>
              var t := Traversal(store, table, prefix, reverse);
              var n := ResumePoint(t, table, lastKey, reverse);
              && n <= |t|
              && var m := PageEnd(n, pageSize, |t|);
              && page.data == Items(store, keysOnly, t[n..m])
              && (page.isLastPage <==> m == |t|)
              && (page.lastKey.None? <==> m == n)
              && (m > n ==> ResumePoint(t, table, page.lastKey, reverse) == m)
  {
    hide EncodeKey, StripTablePrefix, PrefixBounds, View, Item, Less, ResumePoint;
    if pageSize <= 0 {
      return Page([], None, true);
    }
    ViewFacts(store, table, prefix);
    var (lower, upper) := PrefixBounds(table, prefix);
    var view := View(store, table, prefix);
    ghost var t := Directed(view, reverse);
    ghost var n := ResumePoint(t, table, lastKey, reverse);
    var position := Position(view, table, upper, lastKey, reverse);
    var data, last, ok := Collect(store, keysOnly, view, reverse, position, pageSize, n);
    ghost var m := PageEnd(n, pageSize, |t|);
    if m > n {
      assert view[if reverse then |view| - m else m - 1] == t[m - 1];
      ResumesAfter(view, table, reverse, m - 1);
    }
    page := Page(data, last, !ok);
  }

  /** Following the last key page by page concatenates to the whole prefix query, in order, with no entry
      missed or repeated, for every page size and in both directions. */
  method ReadAllPages(
    store: Store, table: TableCode, prefix: Bytes, pageSize: int, keysOnly: bool, reverse: bool)
    returns (all: seq<Bytes>)
    requires Encoded(store) && pageSize > 0
    ensures all == Items(store, keysOnly, Traversal(store, table, prefix, reverse))
  {
    ghost var t := Traversal(store, table, prefix, reverse);
    ghost var n := 0;
    var lastKey: Option<Bytes> := None;
    all := [];
    while true
      invariant n == ResumePoint(t, table, lastKey, reverse) <= |t|
      invariant all == Items(store, keysOnly, t[..n])
      decreases |t| - n
    {
      var page := ReadPage(store, table, prefix, pageSize, lastKey, keysOnly, reverse);
      ghost var m := PageEnd(n, pageSize, |t|);
      ItemsSplit(store, keysOnly, t, n, m);
      all := all + page.data;
      if page.isLastPage {
        assert t[..m] == t;
        return;
      }
      n := m;
      lastKey := page.lastKey;
    }
  }

  /** The traversal is the whole prefix: every stored key of the table with the prefix, once, in order. */
  lemma TraversalComplete(store: Store, table: TableCode, prefix: Bytes, reverse: bool, key: Bytes)
    requires Encoded(store)
    ensures EncodeKey(table, key) in Traversal(store, table, prefix, reverse) <==>
            EncodeKey(table, key) in store && StartsWith(key, prefix)
    ensures var t := Traversal(store, table, prefix, reverse);
            forall i, j :: 0 <= i < j < |t| ==> if reverse then Less(t[j], t[i]) else Less(t[i], t[j])
  {
    hide EncodeKey, Less, StartsWith, PrefixBounds, Within;
    PrefixBoundsExact(table, prefix, table, key);
    var view, t := View(store, table, prefix), Traversal(store, table, prefix, reverse);
    var k := EncodeKey(table, key);
    if reverse {
      if k in view {
        var i :| 0 <= i < |view| && view[i] == k;
        assert t[|view| - 1 - i] == k;
      }
      if k in t {
        var i :| 0 <= i < |t| && t[i] == k;
        assert view[|view| - 1 - i] == k;
      }
    }
  }

  /** What a query reads: of every stored entry of the table with the prefix, the key without the table, or the value. */
  lemma ItemsAreEntries(store: Store, table: TableCode, prefix: Bytes, keysOnly: bool, reverse: bool, i: nat)
    requires Encoded(store) && i < |Traversal(store, table, prefix, reverse)|
    ensures var t := Traversal(store, table, prefix, reverse);
            && t[i] in store && |t[i]| >= 2 && t[i][..2] == [table / 256, table % 256] && StartsWith(t[i][2..], prefix)
            && Items(store, keysOnly, t)[i] == if keysOnly then t[i][2..] else store[t[i]]
  {
    hide Less, StartsWith, PrefixBounds, Within;
    var view, t := View(store, table, prefix), Traversal(store, table, prefix, reverse);
    var k := view[if reverse then |view| - 1 - i else i];
    assert k == t[i] && k in view && k in t;
    ViewFacts(store, table, prefix);
    var key := StripTablePrefix(k);
    assert k == EncodeKey(table, key) && k[..2] == TablePrefix(table) && k[2..] == key;
    TraversalComplete(store, table, prefix, reverse, key);
  }
}
