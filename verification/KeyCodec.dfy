/** Table-prefixed byte keys and the bounds of range and prefix queries. */
module KeyCodec {

  import opened Bytes
  import opened Wrappers

  type TableCode = x: nat | x < 65536

  const TABLE_PREFIX_SIZE := 2

  function TablePrefix(table: TableCode): Bytes {
    [table / 256, table % 256]
  }

  function EncodeKey(table: TableCode, key: Bytes): Bytes {
    TablePrefix(table) + key
  }

  function StripTablePrefix(key: Bytes): Bytes {
    if |key| <= TABLE_PREFIX_SIZE then [] else key[TABLE_PREFIX_SIZE..]
  }

  /** The first key past the table; the last table has none. */
  function TableUpperBound(table: TableCode): Option<Bytes> {
    if table == 65535 then None else Some(TablePrefix(table + 1))
  }

  /** The least key above every extension of `key`: drop trailing 0xff bytes and bump the last one. */
  function Successor(key: Bytes): Option<Bytes> {
    if key == [] then None
    else if key[|key| - 1] != 255 then Some(key[..|key| - 1] + [key[|key| - 1] + 1])
    else Successor(key[..|key| - 1])
  }

  /** The backward scan over a copy of the key. */
  method KeySuccessor(key: Bytes) returns (r: Option<Bytes>)
    ensures r == Successor(key)
  {
    var copy := new Byte[|key|](i requires 0 <= i < |key| => key[i]);
    var i := |key| - 1;
    assert key[..|key|] == key;
    while i >= 0
      invariant -1 <= i < |key|
      invariant copy[..] == key
      invariant Successor(key) == Successor(key[..i + 1])
    {
      if copy[i] != 255 {
        assert key[..i + 1][..i] == key[..i];
        copy[i] := copy[i] + 1;
        assert copy[..i + 1] == key[..i] + [key[i] + 1];
        return Some(copy[..i + 1]);
      }
      assert key[..i + 1][..i] == key[..i];
      i := i - 1;
    }
    assert key[..0] == [];
    return None;
  }

  function PrefixBounds(table: TableCode, prefix: Bytes): (Bytes, Option<Bytes>) {
    var lower := EncodeKey(table, prefix);
    var upper := Successor(lower);
    var tableUpper := TableUpperBound(table);
    if upper.None? || (tableUpper.Some? && Less(tableUpper.value, upper.value)) then (lower, tableUpper)
    else (lower, upper)
  }

  function RangeBounds(table: TableCode, start: Option<Bytes>, end: Option<Bytes>): (Bytes, Option<Bytes>) {
    ( if start.Some? then EncodeKey(table, start.value) else TablePrefix(table),
      if end.Some? then Some(EncodeKey(table, end.value)) else TableUpperBound(table) )
  }

  /** The half-open interval an engine iterator runs over. */
  predicate Within(bounds: (Bytes, Option<Bytes>), key: Bytes) {
    AtMost(bounds.0, key) && (bounds.1.None? || Less(key, bounds.1.value))
  }

  predicate StartsWith(key: Bytes, prefix: Bytes) {
    prefix <= key
  }

  /** Encoding is injective and the stripped key is the key that was encoded. */
  lemma EncodeRoundTrip(table: TableCode, key: Bytes, table': TableCode, key': Bytes)
    ensures StripTablePrefix(EncodeKey(table, key)) == key
    ensures EncodeKey(table, key) == EncodeKey(table', key') <==> table == table' && key == key'
  {
    var a, b := EncodeKey(table, key), EncodeKey(table', key');
    assert a[2..] == key && b[2..] == key';
    if a == b {
      assert a[0] == table / 256 && a[1] == table % 256;
      assert b[0] == table' / 256 && b[1] == table' % 256;
    }
  }

  // ----- Prefix bounds -----

  /** The successor read from the front. */
  lemma {:induction false} SuccessorOfCons(a: Byte, rest: Bytes)
    ensures Successor([a] + rest) ==
            if Successor(rest).Some? then Some([a] + Successor(rest).value)
            else if a != 255 then Some([a + 1])
            else None
  {
    var key := [a] + rest;
    if rest == [] {
      assert key == [a] && key[..|key| - 1] == [];
      if a != 255 {
        var bumped: Byte := a + 1;
        assert [] + [bumped] == [bumped];
      }
    } else {
      var n := |rest| - 1;
      assert key[|key| - 1] == rest[n];
      assert key[..|key| - 1] == [a] + rest[..n];
      if rest[n] != 255 {
        assert [a] + rest[..n] + [rest[n] + 1] == [a] + (rest[..n] + [rest[n] + 1]);
      } else {
        SuccessorOfCons(a, rest[..n]);
      }
    }
  }

  lemma LessOfCons(a: Byte, x: Bytes, b: Byte, y: Bytes)
    ensures Less([a] + x, [b] + y) <==> a < b || (a == b && Less(x, y))
  {
    assert ([a] + x)[1..] == x && ([b] + y)[1..] == y;
  }

  lemma NothingBelowEmpty(x: Bytes)
    ensures !Less(x, [])
  {
  }

  /** A key is at or above `p` and below its successor exactly when it extends `p`. */
  lemma {:induction false} SuccessorBoundsExtensions(p: Bytes, x: Bytes)
    ensures AtMost(p, x) && (Successor(p).None? || Less(x, Successor(p).value)) <==> StartsWith(x, p)
  {
    if p == [] {
      assert x == [] || Less([], x);
    } else if x == [] {
      NothingBelowEmpty(p);
    } else {
      var a, p', b, x' := p[0], p[1..], x[0], x[1..];
      assert p == [a] + p' && x == [b] + x';
      SuccessorOfCons(a, p');
      LessOfCons(a, p', b, x');
      assert StartsWith(x, p) <==> a == b && StartsWith(x', p');
      if Successor(p').Some? {
        LessOfCons(b, x', a, Successor(p').value);
      } else if a != 255 {
        LessOfCons(b, x', a + 1, []);
        NothingBelowEmpty(x');
      }
      if a == b {
        assert AtMost(p, x) <==> AtMost(p', x');
        SuccessorBoundsExtensions(p', x');
      }
    }
  }

  /** The successor of an encoded key never passes the end of its table. */
  lemma SuccessorStaysInTable(table: TableCode, prefix: Bytes)
    ensures PrefixBounds(table, prefix) == (EncodeKey(table, prefix), Successor(EncodeKey(table, prefix)))
  {
    var hi: Byte, lo: Byte := table / 256, table % 256;
    assert EncodeKey(table, prefix) == [hi] + ([lo] + prefix);
    SuccessorOfCons(hi, [lo] + prefix);
    SuccessorOfCons(lo, prefix);
    var upper := Successor(EncodeKey(table, prefix));
    var tableUpper := TableUpperBound(table);
    if tableUpper.Some? {
      var nextHi: Byte, nextLo: Byte := (table + 1) / 256, (table + 1) % 256;
      assert tableUpper.value == [nextHi] + ([nextLo] + []);
      if Successor(prefix).Some? {
        LessOfCons(nextHi, [nextLo] + [], hi, [lo] + Successor(prefix).value);
        LessOfCons(nextLo, [], lo, Successor(prefix).value);
      } else if lo != 255 {
        LessOfCons(nextHi, [nextLo] + [], hi, [lo + 1]);
        LessIrreflexive([lo + 1]);
      } else {
        LessOfCons(nextHi, [nextLo] + [], hi + 1, []);
        NothingBelowEmpty([nextLo] + []);
      }
    }
  }

  /** An encoded key lies between the prefix bounds exactly when it is in the table and has the prefix. */
  lemma PrefixBoundsExact(table: TableCode, prefix: Bytes, table': TableCode, key: Bytes)
    ensures Within(PrefixBounds(table, prefix), EncodeKey(table', key)) <==>
            table == table' && StartsWith(key, prefix)
  {
    var lower, x := EncodeKey(table, prefix), EncodeKey(table', key);
    SuccessorStaysInTable(table, prefix);
    SuccessorBoundsExtensions(lower, x);
    if StartsWith(x, lower) {
      assert x[0] == lower[0] && x[1] == lower[1];
      assert key == x[2..] && prefix == lower[2..];
    }
    if table == table' && StartsWith(key, prefix) {
      assert x == lower + key[|prefix|..];
    }
  }

  // ----- Range bounds -----

  lemma {:induction false} LessWithCommonFront(front: Bytes, a: Bytes, b: Bytes)
    ensures Less(front + a, front + b) <==> Less(a, b)
  {
    if front == [] {
      assert front + a == a && front + b == b;
    } else {
      assert front + a == [front[0]] + (front[1..] + a) && front + b == [front[0]] + (front[1..] + b);
      LessOfCons(front[0], front[1..] + a, front[0], front[1..] + b);
      LessWithCommonFront(front[1..], a, b);
    }
  }

  /** Keys of different tables are ordered by table, whatever the keys. */
  lemma LessAcrossTables(table: TableCode, a: Bytes, table': TableCode, b: Bytes)
    requires table < table'
    ensures Less(EncodeKey(table, a), EncodeKey(table', b))
  {
    assert EncodeKey(table, a) == [table / 256] + ([table % 256] + a);
    assert EncodeKey(table', b) == [table' / 256] + ([table' % 256] + b);
    LessOfCons(table / 256, [table % 256] + a, table' / 256, [table' % 256] + b);
    LessOfCons(table % 256, a, table' % 256, b);
  }

  /** A range query stays in its table and compares the bare keys; an absent bound is no bound. */
  lemma RangeBoundsExact(table: TableCode, start: Option<Bytes>, end: Option<Bytes>, table': TableCode, key: Bytes)
    ensures Within(RangeBounds(table, start, end), EncodeKey(table', key)) <==>
            && table == table'
            && (start.Some? ==> AtMost(start.value, key))
            && (end.Some? ==> Less(key, end.value))
  {
    var x := EncodeKey(table', key);
    var s := if start.Some? then start.value else [];
    assert RangeBounds(table, start, end).0 == EncodeKey(table, s);
    assert key == [] || Less([], key);
    if table' < table {
      LessAcrossTables(table', key, table, s);
      LessAsymmetric(x, EncodeKey(table, s));
    } else if table < table' {
      if end.Some? {
        LessAcrossTables(table, end.value, table', key);
        LessAsymmetric(EncodeKey(table, end.value), x);
      } else {
        assert TablePrefix(table + 1) + [] == TablePrefix(table + 1);
        if table + 1 < table' {
          LessAcrossTables(table + 1, [], table', key);
          LessAsymmetric(EncodeKey(table + 1, []), x);
        } else {
          LessWithCommonFront(TablePrefix(table'), key, []);
          NothingBelowEmpty(key);
        }
      }
    } else {
      LessWithCommonFront(TablePrefix(table), s, key);
      EncodeRoundTrip(table, s, table, key);
      if end.Some? {
        LessWithCommonFront(TablePrefix(table), key, end.value);
      } else if table < 65535 {
        LessAcrossTables(table, key, table + 1, []);
        assert TablePrefix(table + 1) + [] == TablePrefix(table + 1);
      }
    }
  }
}
