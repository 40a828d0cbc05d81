/** The genesis state: who is funded, how the supply is split, and why merging accounts loses nothing. */
module Genesis {

  import opened Bytes
  import StakePayout
  import opened ChainState
  import opened Sums
  import opened SupplyAccounting
  import opened Uint64
  import opened Wrappers

  const BUILTIN_LAMPORTS: Word := 10_000_000
  const VALIDATOR_RESERVE: Word := 10_000_000
  const DEFAULT_SUPPLY: Word := 100_000_000 * 1_000_000_000

  datatype Funding = Funding(address: Address, lamports: Word)

  /** `data` is the encoded stake state, absent when it does not encode. */
  datatype GenesisValidator = GenesisValidator(staker: Address, account: Address, stake: Word, data: Option<Bytes>)

  datatype GenesisConfig = GenesisConfig(
    chainId: string,
    supply: Word,
    treasury: Address,
    funded: seq<Funding>,
    validators: seq<GenesisValidator>)

  /** What genesis takes from elsewhere; `acceptable` says which accounts can be created at all. */
  datatype Rules = Rules(
    defaultTreasury: Address,
    stakerRent: Word,
    poolRent: Word,
    poolData: Bytes,
    acceptable: Account -> bool)

  function SupplyOf(c: GenesisConfig): Word {
    if c.supply == 0 then DEFAULT_SUPPLY else c.supply
  }

  function TreasuryOf(c: GenesisConfig, rules: Rules): Address {
    if c.treasury == 0 then rules.defaultTreasury else c.treasury
  }

  // ----- Address checks -----

  predicate UserAddress(a: Address) {
    a != 0 && a != SHIELDED_POOL && !IsBuiltinProgram(a)
  }

  ghost predicate AddressesOk(c: GenesisConfig, treasury: Address) {
    && UserAddress(treasury)
    && (forall i :: 0 <= i < |c.funded| ==> UserAddress(c.funded[i].address))
    && (forall i :: 0 <= i < |c.validators| ==> UserAddress(c.validators[i].staker) && UserAddress(c.validators[i].account))
    && (forall i, j :: 0 <= i < j < |c.validators| ==> c.validators[i].account != c.validators[j].account)
    && (forall i :: 0 <= i < |c.validators| ==> c.validators[i].account != treasury)
    && (forall i, j :: 0 <= i < |c.validators| && 0 <= j < |c.funded| ==> c.validators[i].account != c.funded[j].address)
    && (forall i, j :: 0 <= i < |c.validators| && 0 <= j < |c.validators| && i != j ==> c.validators[i].account != c.validators[j].staker)
  }

  // ----- Merging -----

  /** Merging one account into the map: onto an empty place it is taken over, onto another balance it is
      added, and an account with data replaces what was there. */
  function Merge(m: Accounts, e: Entry): Accounts {
    if e.address !in m || (m[e.address].lamports == 0 && m[e.address].data == []) then m[e.address := e.account]
    else if e.account.data != [] then m[e.address := e.account]
    else m[e.address := m[e.address].(lamports := Wrap(m[e.address].lamports + e.account.lamports))]
  }

  function Merged(s: seq<Entry>): Accounts {
    if s == [] then map[] else Merge(Merged(s[..|s| - 1]), s[|s| - 1])
  }

  ghost function Lamports(m: Accounts): map<Address, nat> {
    map a | a in m :: m[a].lamports
  }

  /** The merge of `e` would replace a balance. */
  ghost predicate Overwrites(m: Accounts, e: Entry) {
    e.address in m && m[e.address].lamports > 0 && e.account.data != []
  }

  /** One merge adds exactly the account's lamports if and only if it replaces no balance. */
  lemma MergeConserves(m: Accounts, e: Entry)
    requires Total(Lamports(m)) + e.account.lamports <= MAX
    ensures Total(Lamports(Merge(m, e))) == Total(Lamports(m)) + e.account.lamports <==> !Overwrites(m, e)
  {
    var w := Lamports(m);
    var next := Merge(m, e);
    assert Lamports(next) == w[e.address := next[e.address].lamports];
    TotalUpdate(w, e.address, next[e.address].lamports);
    if e.address in m {
      SumRemove(w, w.Keys, e.address);
      assert w[e.address] <= Total(w);
    }
  }

  /** Accounts with data come only to addresses nothing came to before. */
  ghost predicate NoOverwrite(s: seq<Entry>) {
    forall i, j :: 0 <= i < j < |s| && s[j].account.data != [] ==> s[i].address != s[j].address
  }

  lemma {:induction false} MergedKeys(s: seq<Entry>, a: Address)
    ensures a in Merged(s) ==> exists i :: 0 <= i < |s| && s[i].address == a
  {
    if s != [] && a in Merged(s) {
      var front := s[..|s| - 1];
      MergedKeys(front, a);
      if a in Merged(front) {
        var i :| 0 <= i < |front| && front[i].address == a;
        assert s[i].address == a;
      } else {
        assert s[|s| - 1].address == a;
      }
    }
  }

  /** Merging a list that overwrites nothing keeps every lamport. */
  lemma {:induction false} MergedConserves(s: seq<Entry>)
    requires NoOverwrite(s) && Supply(s) <= MAX
    ensures Total(Lamports(Merged(s))) == Supply(s)
  {
    if s == [] {
      assert Lamports(Merged(s)) == map[];
    } else {
      var n := |s| - 1;
      var front := s[..n];
      MergedConserves(front);
      MergedKeys(front, s[n].address);
      assert !Overwrites(Merged(front), s[n]) by {
        assert forall i :: 0 <= i < n ==> front[i] == s[i];
      }
      MergeConserves(Merged(front), s[n]);
    }
  }

  // ----- The accounts of genesis -----

  function Plain(a: Address, lamports: nat): Entry {
    Entry(a, Account(lamports, [], SYSTEM_PROGRAM, false))
  }

  function FundedEntries(c: GenesisConfig, n: nat): (r: seq<Entry>)
    requires n <= |c.funded|
    ensures |r| == n && forall i :: 0 <= i < n ==> r[i] == Plain(c.funded[i].address, c.funded[i].lamports)
  {
    seq(n, i requires 0 <= i < n => Plain(c.funded[i].address, c.funded[i].lamports))
  }

  function FundedAddresses(c: GenesisConfig, n: nat): set<Address>
    requires n <= |c.funded|
  {
    if n == 0 then {} else FundedAddresses(c, n - 1) + {c.funded[n - 1].address}
  }

  /** The stakers of the first `n` validators that no account exists for yet, and all receivers known then. */
  function Stakers(c: GenesisConfig, known: set<Address>, n: nat): (seq<Address>, set<Address>)
    requires n <= |c.validators|
  {
    if n == 0 then ([], known)
    else
      var (list, receivers) := Stakers(c, known, n - 1);
      var v := c.validators[n - 1];
      if v.staker == v.account || v.staker in receivers then (list, receivers)
      else (list + [v.staker], receivers + {v.staker})
  }

  function StakerEntries(list: seq<Address>, rent: Word): (r: seq<Entry>)
    ensures |r| == |list| && forall i :: 0 <= i < |list| ==> r[i] == Plain(list[i], rent)
  {
    seq(|list|, i requires 0 <= i < |list| => Plain(list[i], rent))
  }

  /** The balance of a validator account; the addition is the machine's. */
  function ValidatorLamports(v: GenesisValidator): Word {
    WrapAdd(v.stake, VALIDATOR_RESERVE)
  }

  function ValidatorEntry(v: GenesisValidator): Entry {
    Entry(v.account, Account(ValidatorLamports(v), if v.data.Some? then v.data.value else [], STAKE_PROGRAM, false))
  }

  function ValidatorEntries(c: GenesisConfig, n: nat): (r: seq<Entry>)
    requires n <= |c.validators|
    ensures |r| == n && forall i :: 0 <= i < n ==> r[i] == ValidatorEntry(c.validators[i])
  {
    seq(n, i requires 0 <= i < n => ValidatorEntry(c.validators[i]))
  }

  function PoolEntry(rules: Rules): Entry {
    Entry(SHIELDED_POOL, Account(rules.poolRent, rules.poolData, SHIELDED_PROGRAM, false))
  }

  function BuiltinEntries(): seq<Entry> {
    [Entry(SYSTEM_PROGRAM, Account(BUILTIN_LAMPORTS, [], NATIVE_LOADER, true)),
     Entry(STAKE_PROGRAM, Account(BUILTIN_LAMPORTS, [], NATIVE_LOADER, true)),
     Entry(SHIELDED_PROGRAM, Account(BUILTIN_LAMPORTS, [], NATIVE_LOADER, true))]
  }

  /** Everything before the treasury: funded accounts, stakers, validators and the shielded pool. */
  function Allocations(c: GenesisConfig, rules: Rules): seq<Entry> {
    var known := {TreasuryOf(c, rules)} + FundedAddresses(c, |c.funded|);
    FundedEntries(c, |c.funded|) + StakerEntries(Stakers(c, known, |c.validators|).0, rules.stakerRent)
    + ValidatorEntries(c, |c.validators|) + [PoolEntry(rules)]
  }

  function GenesisList(c: GenesisConfig, rules: Rules, treasury: nat): seq<Entry> {
    Allocations(c, rules) + [Plain(TreasuryOf(c, rules), treasury)] + BuiltinEntries()
  }

  // ----- Nothing is overwritten -----

  lemma {:induction false} StakersAreStakers(c: GenesisConfig, known: set<Address>, n: nat, k: nat)
    requires n <= |c.validators| && k < |Stakers(c, known, n).0|
    ensures exists j :: 0 <= j < n && c.validators[j].staker == Stakers(c, known, n).0[k] && c.validators[j].staker != c.validators[j].account
  {
    var (list, receivers) := Stakers(c, known, n - 1);
    if k < |list| {
      StakersAreStakers(c, known, n - 1, k);
    } else {
      assert c.validators[n - 1].staker == Stakers(c, known, n).0[k];
    }
  }

  /** No account of the list has a validator's address but the validator's own. */
  lemma AllocationsKeepApart(c: GenesisConfig, rules: Rules)
    requires AddressesOk(c, TreasuryOf(c, rules))
    ensures NoOverwrite(Allocations(c, rules))
    ensures forall k :: 0 <= k < |Allocations(c, rules)| - 1 ==> UserAddress(Allocations(c, rules)[k].address)
  {
    var known := {TreasuryOf(c, rules)} + FundedAddresses(c, |c.funded|);
    var list := Stakers(c, known, |c.validators|).0;
    var f, s, v := FundedEntries(c, |c.funded|), StakerEntries(list, rules.stakerRent), ValidatorEntries(c, |c.validators|);
    var all := Allocations(c, rules);
    assert all == f + s + v + [PoolEntry(rules)];
    forall k | 0 <= k < |all| - 1 ensures UserAddress(all[k].address) {
      StakerAt(c, rules, known, k);
    }
    forall i, j | 0 <= i < j < |all| && all[j].account.data != [] ensures all[i].address != all[j].address {
      StakerAt(c, rules, known, i);
      if j < |all| - 1 {
        var b := j - |f| - |s|;
        assert 0 <= b < |v| && all[j] == v[b];
        ValidatorApart(c, rules, known, i, b);
      }
    }
  }

  /** The address at a place of the list, by what the place holds. */
  ghost predicate PlaceHolds(c: GenesisConfig, known: set<Address>, k: nat, a: Address) {
    var list := Stakers(c, known, |c.validators|).0;
    var f, s := |c.funded|, |c.funded| + |list|;
    if k < f then a == c.funded[k].address
    else if k < s then exists j :: 0 <= j < |c.validators| && c.validators[j].staker == a && c.validators[j].staker != c.validators[j].account
    else k < s + |c.validators| ==> a == c.validators[k - s].account
  }

  lemma StakerAt(c: GenesisConfig, rules: Rules, known: set<Address>, k: nat)
    requires known == {TreasuryOf(c, rules)} + FundedAddresses(c, |c.funded|) && k < |Allocations(c, rules)| - 1
    ensures PlaceHolds(c, known, k, Allocations(c, rules)[k].address)
  {
    var list := Stakers(c, known, |c.validators|).0;
    var f, s := |c.funded|, |c.funded| + |list|;
    if f <= k < s {
      StakersAreStakers(c, known, |c.validators|, k - f);
      assert Allocations(c, rules)[k].address == list[k - f];
    }
  }

  lemma ValidatorApart(c: GenesisConfig, rules: Rules, known: set<Address>, i: nat, b: nat)
    requires AddressesOk(c, TreasuryOf(c, rules)) && known == {TreasuryOf(c, rules)} + FundedAddresses(c, |c.funded|)
    requires b < |c.validators| && i < |c.funded| + |Stakers(c, known, |c.validators|).0| + b
    ensures i < |Allocations(c, rules)| && Allocations(c, rules)[i].address != c.validators[b].account
  {
    StakerAt(c, rules, known, i);
  }

  lemma GenesisOverwritesNothing(c: GenesisConfig, rules: Rules, treasury: nat)
    requires AddressesOk(c, TreasuryOf(c, rules))
    ensures NoOverwrite(GenesisList(c, rules, treasury))
  {
    AllocationsKeepApart(c, rules);
    var all, list := Allocations(c, rules), GenesisList(c, rules, treasury);
    forall i, j | 0 <= i < j < |list| && list[j].account.data != [] ensures list[i].address != list[j].address {
      assert j < |all|;
      assert list[i] == all[i] && list[j] == all[j];
    }
  }

  // ----- Checking the addresses -----

  method ValidateAddresses(c: GenesisConfig, treasury: Address) returns (ok: bool)
    ensures ok <==> AddressesOk(c, treasury)
  {
    if !UserAddress(treasury) {
      return false;
    }
    var funded: set<Address> := {};
    for i := 0 to |c.funded|
      invariant forall k :: 0 <= k < i ==> UserAddress(c.funded[k].address) && c.funded[k].address in funded
      invariant forall a :: a in funded ==> exists k :: 0 <= k < i && c.funded[k].address == a
    {
      if !UserAddress(c.funded[i].address) {
        return false;
      }
      funded := funded + {c.funded[i].address};
    }
    var accounts := CheckValidators(c);
    if accounts.None? {
      return false;
    }
    for i := 0 to |c.validators|
      invariant forall k :: 0 <= k < i ==> c.validators[k].account != treasury && c.validators[k].account !in funded
      invariant forall k, j :: 0 <= k < i && 0 <= j < |c.validators| && k != j ==> c.validators[k].account != c.validators[j].staker
    {
      if c.validators[i].account == treasury || c.validators[i].account in funded {
        return false;
      }
      for j := 0 to |c.validators|
        invariant forall k :: 0 <= k < j && k != i ==> c.validators[i].account != c.validators[k].staker
      {
        if j != i && c.validators[j].staker == c.validators[i].account {
          return false;
        }
      }
    }
    return true;
  }

  /** User addresses throughout, and no validator account twice. */
  method CheckValidators(c: GenesisConfig) returns (accounts: Option<set<Address>>)
    ensures accounts.Some? <==>
            && (forall i :: 0 <= i < |c.validators| ==> UserAddress(c.validators[i].staker) && UserAddress(c.validators[i].account))
            && (forall i, j :: 0 <= i < j < |c.validators| ==> c.validators[i].account != c.validators[j].account)
  {
    var seen: set<Address> := {};
    for i := 0 to |c.validators|
      invariant forall k :: 0 <= k < i ==> UserAddress(c.validators[k].staker) && UserAddress(c.validators[k].account)
      invariant forall k, j :: 0 <= k < j < i ==> c.validators[k].account != c.validators[j].account
      invariant forall a :: a in seen <==> exists k :: 0 <= k < i && c.validators[k].account == a
    {
      var v := c.validators[i];
      if !UserAddress(v.staker) || !UserAddress(v.account) {
        return None;
      }
      if v.account in seen {
        return None;
      }
      seen := seen + {v.account};
    }
    return Some(seen);
  }

  // ----- Splitting the supply -----

  /** The accounts can be created and paid for. */
  ghost predicate Fits(rules: Rules, s: seq<Entry>, supply: Word) {
    Supply(s) <= supply && forall i :: 0 <= i < |s| ==> rules.acceptable(s[i].account)
  }

  lemma {:induction false} SupplyPrefix(s: seq<Entry>, n: nat)
    requires n <= |s|
    ensures Supply(s[..n]) <= Supply(s)
    decreases |s|
  {
    if n == |s| {
      assert s[..n] == s;
    } else {
      assert s[..|s| - 1][..n] == s[..n];
      SupplyPrefix(s[..|s| - 1], n);
    }
  }

  lemma FitsPrefix(rules: Rules, s: seq<Entry>, t: seq<Entry>, supply: Word)
    requires s <= t && Fits(rules, t, supply)
    ensures Fits(rules, s, supply)
  {
    assert t[..|s|] == s;
    SupplyPrefix(t, |s|);
  }

  /** One more account, paid for out of what is left. */
  method Allocate(rules: Rules, list: seq<Entry>, left: Word, e: Entry, ghost supply: Word)
    returns (r: Option<(seq<Entry>, Word)>)
    requires Fits(rules, list, supply) && left == supply - Supply(list)
    ensures r.Some? <==> Fits(rules, list + [e], supply)
    ensures r.Some? ==> r.value == (list + [e], supply - Supply(list + [e]))
  {
    assert (list + [e])[..|list + [e]| - 1] == list;
    if left < e.account.lamports {
      return None;
    }
    if !rules.acceptable(e.account) {
      assert (list + [e])[|list|] == e;
      return None;
    }
    return Some((list + [e], left - e.account.lamports));
  }

  ghost predicate FundedPositive(c: GenesisConfig) {
    forall i :: 0 <= i < |c.funded| ==> c.funded[i].lamports > 0
  }

  method AllocateFunded(c: GenesisConfig, rules: Rules, supply: Word)
    returns (r: Option<(seq<Entry>, Word)>, known: set<Address>)
    ensures r.Some? <==> FundedPositive(c) && Fits(rules, FundedEntries(c, |c.funded|), supply)
    ensures r.Some? ==> r.value == (FundedEntries(c, |c.funded|), supply - Supply(FundedEntries(c, |c.funded|)))
    ensures r.Some? ==> known == {TreasuryOf(c, rules)} + FundedAddresses(c, |c.funded|)
  {
    hide Fits, Supply, TreasuryOf;
    var list, left := [], supply;
    known := {TreasuryOf(c, rules)};
    EmptyFits(rules, supply);
    for i := 0 to |c.funded|
      invariant forall k :: 0 <= k < i ==> c.funded[k].lamports > 0
      invariant list == FundedEntries(c, i) && Fits(rules, list, supply) && left == supply - Supply(list)
      invariant known == {TreasuryOf(c, rules)} + FundedAddresses(c, i)
    {
      if c.funded[i].lamports == 0 {
        return None, known;
      }
      var e := Plain(c.funded[i].address, c.funded[i].lamports);
      assert FundedEntries(c, i + 1) == list + [e];
      var next := Allocate(rules, list, left, e, supply);
      if next.None? {
        NotFitting(rules, FundedEntries(c, i + 1), FundedEntries(c, |c.funded|), supply);
        return None, known;
      }
      list, left := next.value.0, next.value.1;
      known := known + {c.funded[i].address};
    }
    return Some((list, left)), known;
  }

  lemma EmptyFits(rules: Rules, supply: Word)
    ensures Fits(rules, [], supply) && Supply([]) == 0
  {
  }

  lemma NotFitting(rules: Rules, s: seq<Entry>, t: seq<Entry>, supply: Word)
    requires s <= t && !Fits(rules, s, supply)
    ensures !Fits(rules, t, supply)
  {
    if Fits(rules, t, supply) {
      FitsPrefix(rules, s, t, supply);
    }
  }

  method AllocateStakers(c: GenesisConfig, rules: Rules, list: seq<Entry>, left: Word, known: set<Address>, ghost supply: Word)
    returns (r: Option<(seq<Entry>, Word)>)
    requires Fits(rules, list, supply) && left == supply - Supply(list)
    ensures var s := list + StakerEntries(Stakers(c, known, |c.validators|).0, rules.stakerRent);
            && (r.Some? <==> Fits(rules, s, supply))
            && (r.Some? ==> r.value == (s, supply - Supply(s)))
  {
    hide Fits, Supply;
    var out, rest, receivers := list, left, known;
    ghost var stakers: seq<Address> := [];
    assert list + StakerEntries([], rules.stakerRent) == list;
    for i := 0 to |c.validators|
      invariant Stakers(c, known, i) == (stakers, receivers)
      invariant out == list + StakerEntries(stakers, rules.stakerRent)
      invariant Fits(rules, out, supply) && rest == supply - Supply(out)
    {
      var v := c.validators[i];
      if v.staker == v.account || v.staker in receivers {
        continue;
      }
      var e := Plain(v.staker, rules.stakerRent);
      assert list + StakerEntries(stakers + [v.staker], rules.stakerRent) == out + [e];
      stakers := stakers + [v.staker];
      var next := Allocate(rules, out, rest, e, supply);
      if next.None? {
        StakersGrow(c, known, i + 1, |c.validators|);
        NotFitting(rules, out + [e], list + StakerEntries(Stakers(c, known, |c.validators|).0, rules.stakerRent), supply);
        return None;
      }
      out, rest := next.value.0, next.value.1;
      receivers := receivers + {v.staker};
    }
    return Some((out, rest));
  }

  lemma {:induction false} StakersGrow(c: GenesisConfig, known: set<Address>, n: nat, m: nat)
    requires n <= m <= |c.validators|
    ensures Stakers(c, known, n).0 <= Stakers(c, known, m).0
    decreases m
  {
    if n < m {
      StakersGrow(c, known, n, m - 1);
    }
  }

  ghost predicate StakesOk(c: GenesisConfig) {
    forall i :: 0 <= i < |c.validators| ==> c.validators[i].stake >= StakePayout.MINIMUM_STAKE && c.validators[i].data.Some?
  }

  method AllocateValidators(c: GenesisConfig, rules: Rules, list: seq<Entry>, left: Word, ghost supply: Word)
    returns (r: Option<(seq<Entry>, Word)>)
    requires Fits(rules, list, supply) && left == supply - Supply(list)
    ensures var s := list + ValidatorEntries(c, |c.validators|);
            && (r.Some? <==> StakesOk(c) && Fits(rules, s, supply))
            && (r.Some? ==> r.value == (s, supply - Supply(s)))
  {
    hide Fits, Supply, ValidatorEntry;
    var out, rest := list, left;
    assert list + ValidatorEntries(c, 0) == list;
    for i := 0 to |c.validators|
      invariant forall k :: 0 <= k < i ==> c.validators[k].stake >= StakePayout.MINIMUM_STAKE && c.validators[k].data.Some?
      invariant out == list + ValidatorEntries(c, i)
      invariant Fits(rules, out, supply) && rest == supply - Supply(out)
    {
      var v := c.validators[i];
      if v.stake < StakePayout.MINIMUM_STAKE || v.data.None? {
        return None;
      }
      assert list + ValidatorEntries(c, i + 1) == out + [ValidatorEntry(v)];
      var next := Allocate(rules, out, rest, ValidatorEntry(v), supply);
      if next.None? {
        assert ValidatorEntries(c, i + 1) <= ValidatorEntries(c, |c.validators|);
        NotFitting(rules, out + [ValidatorEntry(v)], list + ValidatorEntries(c, |c.validators|), supply);
        return None;
      }
      out, rest := next.value.0, next.value.1;
    }
    return Some((out, rest));
  }

  /** When there is a genesis state. */
  ghost predicate GenesisAllowed(c: GenesisConfig, rules: Rules) {
    var all := Allocations(c, rules);
    var funding := 3 * BUILTIN_LAMPORTS;
    && c.chainId != "" && AddressesOk(c, TreasuryOf(c, rules)) && FundedPositive(c) && StakesOk(c)
    && Fits(rules, all, SupplyOf(c)) && Supply(all) + funding <= SupplyOf(c)
    && rules.acceptable(Account(SupplyOf(c) - funding - Supply(all), [], SYSTEM_PROGRAM, false))
    && rules.acceptable(Account(BUILTIN_LAMPORTS, [], NATIVE_LOADER, true))
  }

  /** What the treasury keeps. */
  function TreasuryShare(c: GenesisConfig, rules: Rules): int {
    SupplyOf(c) - 3 * BUILTIN_LAMPORTS - Supply(Allocations(c, rules))
  }

  lemma {:induction false} SupplySum(s: seq<Entry>, t: seq<Entry>)
    ensures Supply(s + t) == Supply(s) + Supply(t)
  {
    if t == [] {
      assert s + t == s;
    } else {
      assert (s + t)[..|s + t| - 1] == s + t[..|t| - 1];
      SupplySum(s, t[..|t| - 1]);
    }
  }

  lemma GenesisListTotal(c: GenesisConfig, rules: Rules, treasury: nat)
    ensures Supply(GenesisList(c, rules, treasury)) == Supply(Allocations(c, rules)) + treasury + 3 * BUILTIN_LAMPORTS
  {
    var own, programs := [Plain(TreasuryOf(c, rules), treasury)], BuiltinEntries();
    SupplySum(Allocations(c, rules) + own, programs);
    SupplySum(Allocations(c, rules), own);
    assert own[..0] == [];
    assert programs[..2][..1] == programs[..1] && programs[..1][..0] == [];
    assert Supply(programs[..1]) == BUILTIN_LAMPORTS;
    assert Supply(programs[..2]) == 2 * BUILTIN_LAMPORTS;
  }

  /** Genesis conserves supply: the merged accounts of an allowed genesis hold exactly the configured supply. */
  lemma GenesisConserves(c: GenesisConfig, rules: Rules)
    requires GenesisAllowed(c, rules)
    ensures TreasuryShare(c, rules) >= 0
    ensures Total(Lamports(Merged(GenesisList(c, rules, TreasuryShare(c, rules))))) == SupplyOf(c)
  {
    GenesisOverwritesNothing(c, rules, TreasuryShare(c, rules));
    GenesisListTotal(c, rules, TreasuryShare(c, rules));
    MergedConserves(GenesisList(c, rules, TreasuryShare(c, rules)));
  }

  method MergeAccounts(s: seq<Entry>) returns (m: Accounts)
    ensures m == Merged(s)
  {
    m := map[];
    for i := 0 to |s|
      invariant m == Merged(s[..i])
    {
      assert s[..i + 1][..i] == s[..i];
      var a, e := s[i].address, s[i].account;
      if a !in m || (m[a].lamports == 0 && |m[a].data| == 0) {
        m := m[a := e];
        continue;
      }
      var current := m[a].(lamports := Wrap(m[a].lamports + e.lamports));
      if |e.data| > 0 {
        current := e;
      }
      m := m[a := current];
    }
    assert s[..|s|] == s;
  }

  method BuildGenesisState(c: GenesisConfig, rules: Rules) returns (r: Option<Accounts>)
    ensures r.Some? <==> GenesisAllowed(c, rules)
    ensures r.Some? ==> TreasuryShare(c, rules) >= 0 && r.value == Merged(GenesisList(c, rules, TreasuryShare(c, rules)))
    ensures r.Some? ==> Total(Lamports(r.value)) == SupplyOf(c)
  {
    var supply, treasury := SupplyOf(c), TreasuryOf(c, rules);
    var addresses := ValidateAddresses(c, treasury);
    if c.chainId == "" || !addresses {
      return None;
    }
    var all := AllocateAll(c, rules, supply);
    if all.None? {
      return None;
    }
    var (list, left) := all.value;
    var funding := 3 * BUILTIN_LAMPORTS;
    if left < funding {
      return None;
    }
    var own := Plain(treasury, left - funding);
    if !rules.acceptable(own.account) || !rules.acceptable(Account(BUILTIN_LAMPORTS, [], NATIVE_LOADER, true)) {
      return None;
    }
    var merged := MergeAccounts(list + [own] + BuiltinEntries());
    GenesisConserves(c, rules);
    return Some(merged);
  }

  method AllocateAll(c: GenesisConfig, rules: Rules, supply: Word) returns (r: Option<(seq<Entry>, Word)>)
    ensures r.Some? <==> FundedPositive(c) && StakesOk(c) && Fits(rules, Allocations(c, rules), supply)
    ensures r.Some? ==> r.value == (Allocations(c, rules), supply - Supply(Allocations(c, rules)))
  {
    hide Fits, FundedPositive, StakesOk, FundedAddresses, Stakers, Supply;
    var all := Allocations(c, rules);
    var funded, known := AllocateFunded(c, rules, supply);
    ghost var f := FundedEntries(c, |c.funded|);
    ghost var s := f + StakerEntries(Stakers(c, known, |c.validators|).0, rules.stakerRent);
    if funded.None? {
      if !Fits(rules, f, supply) {
        NotFitting(rules, f, all, supply);
      }
      return None;
    }
    var stakers := AllocateStakers(c, rules, funded.value.0, funded.value.1, known, supply);
    if stakers.None? {
      NotFitting(rules, s, all, supply);
      return None;
    }
    var validators := AllocateValidators(c, rules, stakers.value.0, stakers.value.1, supply);
    if validators.None? {
      if !Fits(rules, s + ValidatorEntries(c, |c.validators|), supply) {
        NotFitting(rules, s + ValidatorEntries(c, |c.validators|), all, supply);
      }
      return None;
    }
    r := Allocate(rules, validators.value.0, validators.value.1, PoolEntry(rules), supply);
  }
}
