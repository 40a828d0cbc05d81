/** Who holds what at genesis: the balance of every address. */
module GenesisBalances {

  import opened ChainState
  import opened Genesis
  import opened Sums
  import opened SupplyAccounting
  import opened Uint64

  // ----- The balances a configuration asks for -----

  function FundedTo(c: GenesisConfig, a: Address, n: nat): nat
    requires n <= |c.funded|
  {
    if n == 0 then 0 else FundedTo(c, a, n - 1) + if c.funded[n - 1].address == a then c.funded[n - 1].lamports else 0
  }

  /** Stake and reserve, added as 64-bit numbers. */
  function StakedAt(c: GenesisConfig, a: Address, n: nat): nat
    requires n <= |c.validators|
  {
    if n == 0 then 0
    else
      StakedAt(c, a, n - 1) +
      if c.validators[n - 1].account == a then (c.validators[n - 1].stake + 10_000_000) % 0x1_0000_0000_0000_0000 else 0
  }

  /** A staker that is nothing else: not its own validator, not funded, not the treasury. */
  ghost predicate OnlyStakes(c: GenesisConfig, treasury: Address, a: Address) {
    && (exists j :: 0 <= j < |c.validators| && c.validators[j].staker == a && c.validators[j].account != a)
    && a != treasury && forall j :: 0 <= j < |c.funded| ==> c.funded[j].address != a
  }

  ghost function Granted(c: GenesisConfig, rules: Rules, a: Address): nat {
    var treasury := if c.treasury == 0 then rules.defaultTreasury else c.treasury;
    FundedTo(c, a, |c.funded|)
    + (if OnlyStakes(c, treasury, a) then rules.stakerRent else 0)
    + StakedAt(c, a, |c.validators|)
    + (if a == SHIELDED_POOL then rules.poolRent else 0)
    + (if a in {SYSTEM_PROGRAM, STAKE_PROGRAM, SHIELDED_PROGRAM} then 10_000_000 else 0)
  }

  // ----- Balances of a list -----

  function ListedAt(s: seq<Entry>, a: Address): nat {
    if s == [] then 0 else ListedAt(s[..|s| - 1], a) + if s[|s| - 1].address == a then s[|s| - 1].account.lamports else 0
  }

  function Held(m: Accounts, a: Address): nat {
    if a in m then m[a].lamports else 0
  }

  lemma {:induction false} ListedSum(s: seq<Entry>, t: seq<Entry>, a: Address)
    ensures ListedAt(s + t, a) == ListedAt(s, a) + ListedAt(t, a)
  {
    if t == [] {
      assert s + t == s;
    } else {
      assert (s + t)[..|s + t| - 1] == s + t[..|t| - 1];
      ListedSum(s, t[..|t| - 1], a);
    }
  }

  lemma ListedOne(e: Entry, a: Address)
    ensures ListedAt([e], a) == if e.address == a then e.account.lamports else 0
  {
    assert [e][..0] == [];
    assert ListedAt([e][..0], a) == 0;
  }

  lemma {:induction false} ListedWithin(s: seq<Entry>, a: Address)
    ensures ListedAt(s, a) <= Supply(s)
  {
    if s != [] {
      ListedWithin(s[..|s| - 1], a);
    }
  }

  /** Merging a list that overwrites nothing gives every address what the list holds for it. */
  lemma {:induction false} MergedHolds(s: seq<Entry>, a: Address)
    requires NoOverwrite(s) && Supply(s) <= MAX
    ensures Held(Merged(s), a) == ListedAt(s, a)
  {
    if s != [] {
      var n := |s| - 1;
      var front := s[..n];
      assert forall i :: 0 <= i < n ==> front[i] == s[i];
      MergedHolds(front, a);
      ListedWithin(s, a);
      MergedKeys(front, s[n].address);
    }
  }

  // ----- The parts of the list -----

  lemma {:induction false} FundedListed(c: GenesisConfig, a: Address, n: nat)
    requires n <= |c.funded|
    ensures ListedAt(FundedEntries(c, n), a) == FundedTo(c, a, n)
  {
    if n > 0 {
      FundedListed(c, a, n - 1);
      assert FundedEntries(c, n)[..n - 1] == FundedEntries(c, n - 1);
    }
  }

  lemma {:induction false} ValidatorsListed(c: GenesisConfig, a: Address, n: nat)
    requires n <= |c.validators|
    ensures ListedAt(ValidatorEntries(c, n), a) == StakedAt(c, a, n)
  {
    if n > 0 {
      ValidatorsListed(c, a, n - 1);
      assert ValidatorEntries(c, n)[..n - 1] == ValidatorEntries(c, n - 1);
      assert ValidatorEntries(c, n)[n - 1] == ValidatorEntry(c.validators[n - 1]);
    }
  }

  /** Each new staker is listed once. */
  lemma {:induction false} StakersListed(c: GenesisConfig, known: set<Address>, rent: Word, a: Address, n: nat)
    requires n <= |c.validators|
    ensures var (list, receivers) := Stakers(c, known, n);
            var newcomer := a !in known && exists j :: 0 <= j < n && c.validators[j].staker == a && c.validators[j].account != a;
            && ListedAt(StakerEntries(list, rent), a) == (if newcomer then rent else 0)
            && (a in receivers <==> a in known || newcomer)
  {
    if n > 0 {
      StakersListed(c, known, rent, a, n - 1);
      var (list, receivers) := Stakers(c, known, n - 1);
      var v := c.validators[n - 1];
      assert StakerEntries(list + [v.staker], rent)[..|list|] == StakerEntries(list, rent);
    }
  }

  lemma {:induction false} FundedKnown(c: GenesisConfig, a: Address, n: nat)
    requires n <= |c.funded|
    ensures a in FundedAddresses(c, n) <==> exists j :: 0 <= j < n && c.funded[j].address == a
  {
    if n > 0 {
      FundedKnown(c, a, n - 1);
    }
  }

  lemma BuiltinListed(a: Address)
    ensures ListedAt(BuiltinEntries(), a) == if a in {SYSTEM_PROGRAM, STAKE_PROGRAM, SHIELDED_PROGRAM} then 10_000_000 else 0
  {
    var s := BuiltinEntries();
    assert s == [s[0]] + [s[1]] + [s[2]];
    ListedSum([s[0]] + [s[1]], [s[2]], a);
    ListedSum([s[0]], [s[1]], a);
    ListedOne(s[0], a);
    ListedOne(s[1], a);
    ListedOne(s[2], a);
  }

  lemma AllocationsListed(c: GenesisConfig, rules: Rules, a: Address)
    ensures ListedAt(Allocations(c, rules), a) ==
            FundedTo(c, a, |c.funded|) + (if OnlyStakes(c, TreasuryOf(c, rules), a) then rules.stakerRent else 0)
            + StakedAt(c, a, |c.validators|) + (if a == SHIELDED_POOL then rules.poolRent else 0)
  {
    hide FundedTo, StakedAt, Stakers, FundedAddresses, ListedAt, TreasuryOf;
    var known := {TreasuryOf(c, rules)} + FundedAddresses(c, |c.funded|);
    var f, s := FundedEntries(c, |c.funded|), StakerEntries(Stakers(c, known, |c.validators|).0, rules.stakerRent);
    var v := ValidatorEntries(c, |c.validators|);
    ListedSum(f + s + v, [PoolEntry(rules)], a);
    ListedSum(f + s, v, a);
    ListedSum(f, s, a);
    FundedListed(c, a, |c.funded|);
    FundedKnown(c, a, |c.funded|);
    StakersListed(c, known, rules.stakerRent, a, |c.validators|);
    ValidatorsListed(c, a, |c.validators|);
    ListedOne(PoolEntry(rules), a);
  }

  // ----- The balance of every address -----

  /** Every address of an allowed genesis holds exactly what it is granted, and the treasury besides that the rest of the
      supply, all of which is handed out. */
  lemma GenesisGrants(c: GenesisConfig, rules: Rules, a: Address)
    requires GenesisAllowed(c, rules)
    ensures TreasuryShare(c, rules) >= 0
    ensures var m := Merged(GenesisList(c, rules, TreasuryShare(c, rules)));
            var treasury := if c.treasury == 0 then rules.defaultTreasury else c.treasury;
            && Held(m, a) == Granted(c, rules, a) + (if a == treasury then TreasuryShare(c, rules) else 0)
            && Total(Lamports(m)) == if c.supply == 0 then 100_000_000_000_000_000 else c.supply
  {
    hide Merged, Allocations, Supply, ListedAt, FundedTo, StakedAt, OnlyStakes, NoOverwrite, BuiltinEntries, AddressesOk, Fits;
    var rest := TreasuryShare(c, rules);
    GenesisConserves(c, rules);
    GenesisOverwritesNothing(c, rules, rest);
    GenesisListTotal(c, rules, rest);
    var own := [Plain(TreasuryOf(c, rules), rest)];
    MergedHolds(GenesisList(c, rules, rest), a);
    ListedSum(Allocations(c, rules) + own, BuiltinEntries(), a);
    ListedSum(Allocations(c, rules), own, a);
    ListedOne(own[0], a);
    AllocationsListed(c, rules, a);
    BuiltinListed(a);
  }

  // ----- Validator accounts -----

  /** An entry whose address no other has is taken over as it is. */
  lemma {:induction false} MergedKeeps(s: seq<Entry>, k: nat)
    requires k < |s| && forall j :: 0 <= j < |s| && j != k ==> s[j].address != s[k].address
    ensures s[k].address in Merged(s) && Merged(s)[s[k].address] == s[k].account
  {
    var n := |s| - 1;
    var front := s[..n];
    assert forall i :: 0 <= i < n ==> front[i] == s[i];
    if k < n {
      MergedKeeps(front, k);
    } else {
      MergedKeys(front, s[k].address);
    }
  }

  lemma ValidatorAlone(c: GenesisConfig, rules: Rules, rest: nat, i: nat, k: nat, j: nat)
    requires AddressesOk(c, TreasuryOf(c, rules)) && i < |c.validators|
    requires var known := {TreasuryOf(c, rules)} + FundedAddresses(c, |c.funded|);
             k == |c.funded| + |Stakers(c, known, |c.validators|).0| + i
    requires j < |GenesisList(c, rules, rest)| && j != k
    ensures GenesisList(c, rules, rest)[j].address != c.validators[i].account
  {
    hide Stakers, FundedAddresses;
    var known := {TreasuryOf(c, rules)} + FundedAddresses(c, |c.funded|);
    var all, list := Allocations(c, rules), GenesisList(c, rules, rest);
    if j < |all| - 1 {
      StakerAt(c, rules, known, j);
      assert list[j] == all[j];
    }
  }

  /** A validator account starts with its stake and the reserve, its encoded stake state, under the stake program. */
  lemma ValidatorStarts(c: GenesisConfig, rules: Rules, i: nat)
    requires GenesisAllowed(c, rules) && i < |c.validators|
    ensures TreasuryShare(c, rules) >= 0
    ensures var m, v := Merged(GenesisList(c, rules, TreasuryShare(c, rules))), c.validators[i];
            && v.account in m && v.data.Some?
            && m[v.account] == Account((v.stake + 10_000_000) % 0x1_0000_0000_0000_0000, v.data.value, STAKE_PROGRAM, false)
  {
    hide Merged, Supply, AddressesOk, Stakers, FundedAddresses, Fits;
    var rest := TreasuryShare(c, rules);
    var known := {TreasuryOf(c, rules)} + FundedAddresses(c, |c.funded|);
    var k := |c.funded| + |Stakers(c, known, |c.validators|).0| + i;
    var list := GenesisList(c, rules, rest);
    assert list[k] == ValidatorEntry(c.validators[i]);
    forall j | 0 <= j < |list| && j != k ensures list[j].address != list[k].address {
      ValidatorAlone(c, rules, rest, i, k, j);
    }
    MergedKeeps(list, k);
  }
}
