/** The account state of the chain: a list of addressed accounts that stands for an address map. */
module ChainState {

  import opened Bytes

  type Address = nat

  datatype Account = Account(lamports: nat, data: Bytes, owner: Address, executable: bool)

  datatype Entry = Entry(address: Address, account: Account)

  type Accounts = map<Address, Account>

  const NATIVE_LOADER: Address := 1
  const SYSTEM_PROGRAM: Address := 2
  const STAKE_PROGRAM: Address := 3
  const SHIELDED_PROGRAM: Address := 4
  const SHIELDED_POOL: Address := 5

  predicate IsBuiltinProgram(a: Address) {
    a == NATIVE_LOADER || a == SYSTEM_PROGRAM || a == STAKE_PROGRAM || a == SHIELDED_PROGRAM
  }

  /** An empty stand-in for a built-in program that the state does not list. */
  predicate IsPlaceholder(e: Entry) {
    && IsBuiltinProgram(e.address)
    && e.account.lamports == 0 && e.account.data == [] && !e.account.executable
    && e.account.owner == NATIVE_LOADER
  }

  ghost predicate Unique(s: seq<Entry>) {
    forall i, j :: 0 <= i < j < |s| ==> s[i].address != s[j].address
  }

  /** The map a list stands for. */
  ghost function AsMap(s: seq<Entry>): Accounts {
    if s == [] then map[] else AsMap(s[..|s| - 1])[s[|s| - 1].address := s[|s| - 1].account]
  }

  lemma {:induction false} AsMapKeys(s: seq<Entry>)
    ensures forall a :: a in AsMap(s) <==> exists i :: 0 <= i < |s| && s[i].address == a
  {
    if s != [] {
      var rest := s[..|s| - 1];
      AsMapKeys(rest);
      forall a ensures a in AsMap(s) <==> exists i :: 0 <= i < |s| && s[i].address == a {
        if exists i :: 0 <= i < |s| && s[i].address == a {
          var i :| 0 <= i < |s| && s[i].address == a;
          if i < |s| - 1 {
            assert rest[i].address == a;
          }
        }
        if a in AsMap(rest) {
          var i :| 0 <= i < |rest| && rest[i].address == a;
          assert s[i].address == a;
        }
      }
    }
  }

  lemma {:induction false} AsMapAt(s: seq<Entry>, i: nat)
    requires Unique(s) && i < |s|
    ensures s[i].address in AsMap(s) && AsMap(s)[s[i].address] == s[i].account
  {
    if i < |s| - 1 {
      AsMapAt(s[..|s| - 1], i);
    }
  }

  /** Replacing the last entry of an address replaces what the list holds for it. */
  lemma {:induction false} AsMapReplace(s: seq<Entry>, i: nat, account: Account)
    requires i < |s| && forall k :: i < k < |s| ==> s[k].address != s[i].address
    ensures AsMap(s[i := Entry(s[i].address, account)]) == AsMap(s)[s[i].address := account]
  {
    var t := s[i := Entry(s[i].address, account)];
    if i == |s| - 1 {
      assert t[..|t| - 1] == s[..|s| - 1];
    } else {
      assert t[..|t| - 1] == s[..|s| - 1][i := Entry(s[i].address, account)];
      AsMapReplace(s[..|s| - 1], i, account);
    }
  }

  /** What one write does to the map: the write wins, but a placeholder is not created. */
  function Written(m: Accounts, e: Entry): Accounts {
    if e.address !in m && IsPlaceholder(e) then m else m[e.address := e.account]
  }

  function WrittenAll(m: Accounts, writes: seq<Entry>): Accounts {
    if writes == [] then m else Written(WrittenAll(m, writes[..|writes| - 1]), writes[|writes| - 1])
  }

  /** The index names the place of every listed address. */
  ghost predicate Indexes(index: map<Address, nat>, s: seq<Entry>) {
    && (forall a :: a in index ==> index[a] < |s| && s[index[a]].address == a)
    && (forall k :: 0 <= k < |s| ==> s[k].address in index)
  }

  /** The index names the last place of every listed address. */
  ghost predicate IndexesLast(index: map<Address, nat>, s: seq<Entry>) {
    Indexes(index, s) && forall a, k :: a in index && index[a] < k < |s| ==> s[k].address != a
  }

  lemma IndexedIsListed(index: map<Address, nat>, s: seq<Entry>, a: Address)
    requires Indexes(index, s)
    ensures a in index <==> a in AsMap(s)
  {
    AsMapKeys(s);
    if a in index {
      assert s[index[a]].address == a;
    }
  }

  lemma AsMapAppend(s: seq<Entry>, w: Entry)
    ensures AsMap(s + [w]) == AsMap(s)[w.address := w.account]
  {
    assert (s + [w])[..|s|] == s;
  }

  lemma UniqueAppend(index: map<Address, nat>, s: seq<Entry>, w: Entry)
    requires Unique(s) && Indexes(index, s) && w.address !in index
    ensures Unique(s + [w])
  {
    forall i, j | 0 <= i < j < |s + [w]| ensures (s + [w])[i].address != (s + [w])[j].address {
      assert s[i].address in index;
    }
  }

  /** One write, through the index: replace in place, append, or skip a placeholder. */
  method ApplyWrite(s: seq<Entry>, index: map<Address, nat>, w: Entry)
    returns (next: seq<Entry>, nextIndex: map<Address, nat>)
    requires IndexesLast(index, s)
    ensures IndexesLast(nextIndex, next) && (Unique(s) ==> Unique(next))
    ensures AsMap(next) == Written(AsMap(s), w)
  {
    next, nextIndex := s, index;
    IndexedIsListed(index, s, w.address);
    if w.address !in index && IsPlaceholder(w) {
      return;
    }
    if w.address in index {
      AsMapReplace(s, index[w.address], w.account);
      next := s[index[w.address] := Entry(w.address, w.account)];
      return;
    }
    AsMapAppend(s, w);
    if Unique(s) {
      UniqueAppend(index, s, w);
    }
    PlacesSnoc(index, s, w);
    nextIndex := index[w.address := |s|];
    next := s + [w];
  }

  /** The place of each listed address; of several places, the last. */
  function Places(s: seq<Entry>): map<Address, nat> {
    if s == [] then map[] else Places(s[..|s| - 1])[s[|s| - 1].address := |s| - 1]
  }

  lemma {:induction false} PlacesIndex(s: seq<Entry>)
    ensures IndexesLast(Places(s), s)
  {
    if s != [] {
      var n := |s| - 1;
      PlacesIndex(s[..n]);
      PlacesSnoc(Places(s[..n]), s[..n], s[n]);
      assert s == s[..n] + [s[n]];
    }
  }

  /** A longer list moves the place of its last address to the end. */
  lemma PlacesSnoc(index: map<Address, nat>, s: seq<Entry>, e: Entry)
    requires IndexesLast(index, s)
    ensures IndexesLast(index[e.address := |s|], s + [e])
  {
    var t, grown := s + [e], index[e.address := |s|];
    forall k | 0 <= k < |t| ensures t[k].address in grown {
      assert k < |s| ==> t[k] == s[k];
    }
    forall a | a in grown ensures grown[a] < |t| && t[grown[a]].address == a {
      assert a != e.address ==> t[index[a]] == s[index[a]];
    }
    forall a, k | a in grown && grown[a] < k < |t| ensures t[k].address != a {
      assert k < |s| ==> t[k] == s[k];
    }
  }

  method BuildIndex(s: seq<Entry>) returns (index: map<Address, nat>)
    ensures index == Places(s)
    ensures IndexesLast(index, s)
  {
    index := map[];
    PlacesIndex(s);
    for i := 0 to |s|
      invariant index == Places(s[..i])
    {
      assert s[..i + 1][..i] == s[..i];
      index := index[s[i].address := i];
    }
    assert s[..|s|] == s;
  }

  /** Applies writes to a copy of the list, through an address index that grows with it. */
  method ApplyWrites(state: seq<Entry>, writes: seq<Entry>) returns (next: seq<Entry>)
    ensures Unique(state) ==> Unique(next)
    ensures AsMap(next) == WrittenAll(AsMap(state), writes)
  {
    next := state;
    var index := BuildIndex(state);
    for n := 0 to |writes|
      invariant IndexesLast(index, next) && (Unique(state) ==> Unique(next))
      invariant AsMap(next) == WrittenAll(AsMap(state), writes[..n])
    {
      assert writes[..n + 1][..n] == writes[..n];
      next, index := ApplyWrite(next, index, writes[n]);
    }
    assert writes[..|writes|] == writes;
  }

  /** What an account map holds at an address, absent or present. */
  predicate SameAt(m: Accounts, n: Accounts, a: Address) {
    (a in m <==> a in n) && (a in m ==> m[a] == n[a])
  }

  /** Writes leave every address they do not name alone. */
  lemma {:induction false} WritesFrame(m: Accounts, writes: seq<Entry>, a: Address)
    requires forall e :: e in writes ==> e.address != a
    ensures SameAt(m, WrittenAll(m, writes), a)
  {
    if writes != [] {
      WritesFrame(m, writes[..|writes| - 1], a);
    }
  }
}
