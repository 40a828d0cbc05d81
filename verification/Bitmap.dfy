/** The voter bitmap of an aggregated certificate, and the stake check of a verifier. */
module Bitmap {

  import opened Bytes
  import opened Sums
  import opened Uint64
  import opened Votes
  import opened Wrappers

  /** A single bit of one byte. */
  predicate BitOfByte(b: bv8, j: nat)
    requires j < 8
  {
    b & (1 << j) != 0
  }

  function SetBitOfByte(b: bv8, j: nat): bv8
    requires j < 8
  {
    b | (1 << j)
  }

  /** Setting one bit sets that bit and no other. */
  lemma SetBitSetsOne(b: bv8, j: nat, k: nat)
    requires j < 8 && k < 8
    ensures BitOfByte(SetBitOfByte(b, j), k) <==> (k == j || BitOfByte(b, k))
  {
    assert j == 0 || j == 1 || j == 2 || j == 3 || j == 4 || j == 5 || j == 6 || j == 7;
    assert k == 0 || k == 1 || k == 2 || k == 3 || k == 4 || k == 5 || k == 6 || k == 7;
  }

  lemma ZeroHasNoBits(k: nat)
    requires k < 8
    ensures !BitOfByte(0, k)
  {
    assert k == 0 || k == 1 || k == 2 || k == 3 || k == 4 || k == 5 || k == 6 || k == 7;
  }

  /** The position `index / 8`, `index % 8` of a bitmap. */
  predicate Bit(bitmap: seq<bv8>, index: nat)
    requires index < 8 * |bitmap|
  {
    BitOfByte(bitmap[index / 8], index % 8)
  }

  predicate DuplicateFree(order: seq<ValidatorId>) {
    forall i, j :: 0 <= i < j < |order| ==> order[i] != order[j]
  }

  predicate ProperOrder(order: seq<ValidatorId>) {
    order != [] && [] !in order && DuplicateFree(order)
  }

  /** A bitmap that marks exactly the members of `voters` in the validator order. */
  ghost predicate Marks(bitmap: seq<bv8>, order: seq<ValidatorId>, voters: set<ValidatorId>) {
    && |bitmap| == (|order| + 7) / 8
    && forall i :: 0 <= i < |order| ==> (Bit(bitmap, i) <==> order[i] in voters)
  }

  /** The validators at the first `n` places of the order whose bit is set, in order. */
  function MarkedList(order: seq<ValidatorId>, bitmap: seq<bv8>, n: nat): seq<ValidatorId>
    requires n <= |order| <= 8 * |bitmap|
  {
    if n == 0 then []
    else MarkedList(order, bitmap, n - 1) + if Bit(bitmap, n - 1) then [order[n - 1]] else []
  }

  lemma {:induction false} MarkedMembers(order: seq<ValidatorId>, bitmap: seq<bv8>, n: nat)
    requires n <= |order| <= 8 * |bitmap|
    ensures MarkedList(order, bitmap, n) == [] <==> forall i :: 0 <= i < n ==> !Bit(bitmap, i)
  {
    hide Bit;
    if n > 0 {
      MarkedMembers(order, bitmap, n - 1);
    }
  }

  /** What a decoder makes of a bitmap: the marked validators in ascending order, or a refusal. */
  function VotersFromBitmap(order: seq<ValidatorId>, bitmap: seq<bv8>): Option<seq<ValidatorId>> {
    if order == [] || bitmap == [] || |bitmap| != (|order| + 7) / 8 then None
    else
      var marked := MarkedList(order, bitmap, |order|);
      if marked == [] then None else Some(SortedList(marked))
  }

  /** The decoding loop collects the marked validators, as often as the order lists them, and sorts them; it
      refuses a bitmap of the wrong length, and one that marks nobody. */
  method DecodeBitmap(order: seq<ValidatorId>, bitmap: seq<bv8>) returns (r: Option<seq<ValidatorId>>)
    ensures r == VotersFromBitmap(order, bitmap)
    ensures r.None? <==>
            order == [] || |bitmap| != (|order| + 7) / 8 || forall i :: 0 <= i < |order| ==> !Bit(bitmap, i)
    ensures r.Some? ==> Ascending(r.value) && multiset(r.value) == multiset(MarkedList(order, bitmap, |order|))
  {
    if |order| == 0 || |bitmap| == 0 {
      return None;
    }
    if |bitmap| != (|order| + 7) / 8 {
      return None;
    }
    hide Bit, SortedList;
    var voters: seq<ValidatorId> := [];
    for index := 0 to |order|
      invariant voters == MarkedList(order, bitmap, index)
    {
      if !Bit(bitmap, index) {
        continue;
      }
      voters := voters + [order[index]];
    }
    MarkedMembers(order, bitmap, |order|);
    SortedListSorts(voters);
    if |voters| == 0 {
      return None;
    }
    return Some(SortedList(voters));
  }

  /** The positions of an order, as the encoder's index table. */
  method IndexByValidator(order: seq<ValidatorId>) returns (index: Option<map<ValidatorId, nat>>)
    ensures index.Some? <==> [] !in order && DuplicateFree(order)
    ensures index.Some? ==> index.value.Keys == Elements(order)
    ensures index.Some? ==> forall v :: v in index.value ==> index.value[v] < |order| && order[index.value[v]] == v
  {
    var table: map<ValidatorId, nat> := map[];
    for i := 0 to |order|
      invariant table.Keys == Elements(order[..i])
      invariant forall v :: v in table ==> table[v] < i && order[table[v]] == v
      invariant [] !in order[..i] && DuplicateFree(order[..i])
    {
      if order[i] == [] {
        return None;
      }
      if order[i] in table {
        assert order[table[order[i]]] == order[i];
        return None;
      }
      ElementsOfPrefix(order, i);
      assert order[..i + 1] == order[..i] + [order[i]];
      table := table[order[i] := i];
    }
    assert order[..|order|] == order;
    return Some(table);
  }

  /** Marking the voters one by one yields a bitmap that marks exactly them. */
  method EncodeBitmap(order: seq<ValidatorId>, voters: seq<ValidatorId>)
    returns (bitmap: Option<seq<bv8>>)
    ensures bitmap.Some? <==>
            [] !in order && DuplicateFree(order) && forall v :: v in voters ==> v in order
    ensures bitmap.Some? ==> Marks(bitmap.value, order, Elements(voters))
  {
    var index := IndexByValidator(order);
    if index.None? {
      return None;
    }
    hide Bit, SetBitOfByte;
    var bits := new bv8[(|order| + 7) / 8](i => 0);
    NothingMarked(bits[..], order);
    for n := 0 to |voters|
      invariant forall v :: v in voters[..n] ==> v in order
      invariant Marks(bits[..], order, Elements(voters[..n]))
    {
      var voter := voters[n];
      if voter !in index.value {
        return None;
      }
      var p := index.value[voter];
      ghost var before := bits[..];
      bits[p / 8] := SetBitOfByte(bits[p / 8], p % 8);
      MarkStep(before, bits[..], order, voters, n, p);
    }
    assert voters[..|voters|] == voters;
    return Some(bits[..]);
  }

  lemma NothingMarked(bits: seq<bv8>, order: seq<ValidatorId>)
    requires |bits| == (|order| + 7) / 8 && forall k :: 0 <= k < |bits| ==> bits[k] == 0
    ensures Marks(bits, order, {})
  {
    forall i | 0 <= i < |order| ensures !Bit(bits, i) {
      ZeroHasNoBits(i % 8);
    }
  }

  /** Setting the bit of the next voter marks it and nobody else. */
  lemma MarkStep(before: seq<bv8>, after: seq<bv8>, order: seq<ValidatorId>, voters: seq<ValidatorId>, n: nat, p: nat)
    requires n < |voters| && p < |order| && order[p] == voters[n] && DuplicateFree(order)
    requires Marks(before, order, Elements(voters[..n]))
    requires after == before[p / 8 := SetBitOfByte(before[p / 8], p % 8)]
    ensures Marks(after, order, Elements(voters[..n + 1]))
  {
    hide Bit, SetBitOfByte;
    ElementsOfPrefix(voters, n);
    forall i | 0 <= i < |order| ensures Bit(after, i) <==> order[i] in Elements(voters[..n + 1]) {
      MarkOne(before, after, p, i);
      assert order[i] == voters[n] <==> i == p;
    }
  }

  lemma MarkOne(before: seq<bv8>, after: seq<bv8>, p: nat, i: nat)
    requires |before| == |after| && p < 8 * |before| && i < 8 * |before|
    requires after == before[p / 8 := SetBitOfByte(before[p / 8], p % 8)]
    ensures Bit(after, i) <==> (i == p || Bit(before, i))
  {
    if i / 8 == p / 8 {
      SetBitSetsOne(before[p / 8], p % 8, i % 8);
    }
  }

  lemma {:induction false} MarkedCounts(order: seq<ValidatorId>, bitmap: seq<bv8>, voters: set<ValidatorId>, n: nat, v: ValidatorId)
    requires Marks(bitmap, order, voters) && n <= |order|
    ensures multiset(MarkedList(order, bitmap, n))[v] == if v in voters then multiset(order[..n])[v] else 0
  {
    hide Bit;
    if n > 0 {
      assert order[..n] == order[..n - 1] + [order[n - 1]];
      MarkedCounts(order, bitmap, voters, n - 1, v);
    }
  }

  lemma {:induction false} MarkedAtMost(order: seq<ValidatorId>, bitmap: seq<bv8>, n: nat)
    requires n <= |order| <= 8 * |bitmap|
    ensures multiset(MarkedList(order, bitmap, n)) <= multiset(order[..n])
  {
    hide Bit;
    if n > 0 {
      assert order[..n] == order[..n - 1] + [order[n - 1]];
      MarkedAtMost(order, bitmap, n - 1);
    }
  }

  /** From an order without repetitions the decoded voters are strictly ascending. */
  lemma DecodedDistinct(order: seq<ValidatorId>, bitmap: seq<bv8>)
    requires DuplicateFree(order) && VotersFromBitmap(order, bitmap).Some?
    ensures StrictlyAscending(VotersFromBitmap(order, bitmap).value)
  {
    hide SortedList, MarkedList;
    var marked := MarkedList(order, bitmap, |order|);
    var sorted := SortedList(marked);
    assert order[..|order|] == order;
    MarkedAtMost(order, bitmap, |order|);
    SortedListSorts(marked);
    forall x | x in sorted ensures multiset(sorted)[x] == 1 {
      assert x in multiset(sorted);
      DistinctCountsOne(order, x);
    }
    AscendingWithoutRepeats(sorted);
  }

  /** Round trip: decoding any bitmap that marks a certificate's voters gives the voters back, sorted, exactly when
      the order lists each of them once; an order without repetitions always does. */
  lemma BitmapRoundTrip(order: seq<ValidatorId>, voters: seq<ValidatorId>, bitmap: seq<bv8>)
    requires voters != [] && StrictlyAscending(voters)
    requires forall v :: v in voters ==> v in order
    requires Marks(bitmap, order, Elements(voters))
    ensures VotersFromBitmap(order, bitmap) == Some(voters) <==> forall v :: v in voters ==> multiset(order)[v] == 1
    ensures DuplicateFree(order) ==> VotersFromBitmap(order, bitmap) == Some(voters)
  {
    hide SortedList, MarkedList, Marks;
    var marked := MarkedOf(order, voters, bitmap);
    var sorted := SortedList(marked);
    SortedListSorts(marked);
    if forall v :: v in voters ==> multiset(order)[v] == 1 {
      forall x ensures x in sorted <==> x in voters {
        assert x in sorted <==> x in multiset(sorted);
      }
      AscendingWithoutRepeats(sorted);
      AscendingUnique(sorted, voters);
    } else if sorted == voters {
      forall v | v in voters ensures multiset(order)[v] == 1 {
        AscendingCountsOne(voters, v);
      }
    }
    if DuplicateFree(order) {
      forall v | v in voters ensures multiset(order)[v] == 1 {
        DistinctCountsOne(order, v);
      }
    }
  }

  /** The list a decoder collects when the bitmap marks `voters`: each of them, as often as the order lists it. */
  lemma MarkedOf(order: seq<ValidatorId>, voters: seq<ValidatorId>, bitmap: seq<bv8>) returns (marked: seq<ValidatorId>)
    requires voters != [] && (forall v :: v in voters ==> v in order) && Marks(bitmap, order, Elements(voters))
    ensures marked != [] && VotersFromBitmap(order, bitmap) == Some(SortedList(marked))
    ensures forall v :: multiset(marked)[v] == if v in voters then multiset(order)[v] else 0
  {
    hide SortedList, MarkedList;
    marked := MarkedList(order, bitmap, |order|);
    assert order[..|order|] == order;
    forall v ensures multiset(marked)[v] == if v in voters then multiset(order)[v] else 0 {
      MarkedCounts(order, bitmap, Elements(voters), |order|, v);
    }
    assert voters[0] in order && voters[0] in multiset(marked);
  }

  /** Two lists of voters with the same bitmap are the same list, so the encoding loses nothing. */
  lemma MarksDetermineVoters(order: seq<ValidatorId>, v: seq<ValidatorId>, w: seq<ValidatorId>, bitmap: seq<bv8>)
    requires StrictlyAscending(v) && StrictlyAscending(w)
    requires forall x :: x in v || x in w ==> x in order
    requires Marks(bitmap, order, Elements(v)) && Marks(bitmap, order, Elements(w))
    ensures v == w
  {
    hide Bit;
    forall x ensures x in v <==> x in w {
      if x in v || x in w {
        var i :| 0 <= i < |order| && order[i] == x;
        assert Bit(bitmap, i) <==> order[i] in Elements(v);
        assert Bit(bitmap, i) <==> order[i] in Elements(w);
      }
    }
    AscendingUnique(v, w);
  }

  // ----- Aggregation of a certificate -----

  /** The voters' signatures, in voter order. */
  function SignatureList(c: Certificate, signatures: map<ValidatorId, Bytes>): seq<Bytes> {
    seq(|c.voters|, i requires 0 <= i < |c.voters| => if c.voters[i] in signatures then signatures[c.voters[i]] else [])
  }

  /** What attaching an aggregate signature may return: the certificate unchanged but for the aggregate
      fields, whose bitmap marks exactly its voters; or nothing, when an input is unfit. */
  ghost predicate Attaches(
    c: Certificate, order: seq<ValidatorId>, signatures: map<ValidatorId, Bytes>,
    aggregate: seq<Bytes> -> Option<Bytes>, r: Option<Certificate>)
  {
    && (r.Some? <==>
        && ValidCertificate(c)
        && ProperOrder(order)
        && Elements(c.voters) <= Elements(order)
        && (forall v :: v in c.voters ==> v in signatures && signatures[v] != [])
        && aggregate(SignatureList(c, signatures)).Some? && aggregate(SignatureList(c, signatures)).value != [])
    && (r.Some? ==>
        && r.value.aggregate == aggregate(SignatureList(c, signatures)).value
        && r.value == c.(scheme := BLS_SCHEME, aggregate := r.value.aggregate, bitmap := r.value.bitmap)
        && Marks(r.value.bitmap, order, Elements(c.voters)))
  }

  /** Collects the voters' signatures in voter order, encodes the bitmap and attaches the aggregate. */
  method AttachAggregate(
    c: Certificate, order: seq<ValidatorId>, signatures: map<ValidatorId, Bytes>,
    aggregate: seq<Bytes> -> Option<Bytes>)
    returns (r: Option<Certificate>)
    ensures Attaches(c, order, signatures, aggregate, r)
    ensures r.Some? ==> ValidCertificate(r.value)
    ensures r.Some? ==> VotersFromBitmap(order, r.value.bitmap) == Some(c.voters)
  {
    var ok := ValidateCertificate(c);
    if !ok || order == [] {
      return None;
    }
    var bitmap := EncodeBitmap(order, c.voters);
    if bitmap.None? {
      return None;
    }
    var list: seq<Bytes> := [];
    for i := 0 to |c.voters|
      invariant |list| == i
      invariant forall k :: 0 <= k < i ==> c.voters[k] in signatures && signatures[c.voters[k]] != []
      invariant forall k :: 0 <= k < i ==> list[k] == signatures[c.voters[k]]
    {
      if c.voters[i] !in signatures || signatures[c.voters[i]] == [] {
        return None;
      }
      list := list + [signatures[c.voters[i]]];
    }
    assert list == SignatureList(c, signatures);
    var signature := aggregate(list);
    if signature.None? || signature.value == [] {
      return None;
    }
    BitmapRoundTrip(order, c.voters, bitmap.value);
    return Some(c.(scheme := BLS_SCHEME, aggregate := signature.value, bitmap := bitmap.value));
  }

  // ----- Verification of an aggregated certificate against a stake table -----

  /** The message each voter signed: everything in it but the voter is common to the certificate. */
  datatype Ballot = Ballot(voter: ValidatorId, voteType: VoteType, slot: nat, height: nat, hash: Hash)

  function BallotOf(c: Certificate, voter: ValidatorId): Ballot {
    Ballot(voter, c.voteType, c.slot, c.height, c.hash)
  }

  /** Aggregate signatures as facts: `verify` accepts only if every listed ballot was signed by its voter. */
  datatype Signatures = Signatures(signed: iset<Ballot>, verify: (seq<Ballot>, Bytes) -> bool)

  ghost predicate Unforgeable(s: Signatures) {
    forall ballots, signature :: s.verify(ballots, signature) ==> forall b :: b in ballots ==> b in s.signed
  }

  predicate SameElements(v: seq<ValidatorId>, w: seq<ValidatorId>) {
    multiset(v) == multiset(w)
  }

  /** The aggregate verifies: the bitmap names the certificate's voters and each of them signed. */
  ghost predicate VerifiesAggregate(
    c: Certificate, order: seq<ValidatorId>, keys: set<ValidatorId>, s: Signatures)
  {
    && ValidCertificate(c)
    && VotersFromBitmap(order, c.bitmap).Some?
    && var voters := VotersFromBitmap(order, c.bitmap).value;
    && SameElements(voters, c.voters)
    && (forall v :: v in voters ==> v in keys)
    && s.verify(seq(|voters|, i requires 0 <= i < |voters| => BallotOf(c, voters[i])), c.aggregate)
  }

  /** Every validator of the order has positive stake and the total fits a word. */
  ghost predicate ProperStake(order: seq<ValidatorId>, stake: map<ValidatorId, nat>) {
    && ProperOrder(order)
    && (forall v :: v in order ==> v in stake && stake[v] > 0)
    && Sum(stake, Elements(order)) <= MAX
  }

  /** Summing the stakes in order detects duplicates, missing stake and overflow. */
  method StakeByValidatorOrder(order: seq<ValidatorId>, stake: map<ValidatorId, nat>)
    returns (r: Option<(map<ValidatorId, nat>, nat)>)
    requires forall v :: v in stake ==> stake[v] <= MAX
    ensures r.Some? <==> ProperStake(order, stake)
    ensures r.Some? ==> r.value.0 == (map v | v in order :: stake[v])
    ensures r.Some? ==> r.value.1 == Sum(stake, Elements(order))
  {
    if |order| == 0 {
      return None;
    }
    hide ProperStake, Listed;
    var ordered: map<ValidatorId, nat> := map[];
    var total: nat := 0;
    ListedStart(order, stake);
    for i := 0 to |order|
      invariant Listed(order, stake, i, ordered, total)
    {
      var id := order[i];
      ListedStep(order, stake, i, ordered, total);
      if id == [] || id in ordered {
        return None;
      }
      if id !in stake || stake[id] == 0 {
        return None;
      }
      if MAX - total < stake[id] {
        return None;
      }
      ordered := ordered[id := stake[id]];
      total := total + stake[id];
    }
    ListedAll(order, stake, ordered, total);
    return Some((ordered, total));
  }

  /** The first `i` members are proper, and their stake is listed and summed. */
  ghost predicate Listed(order: seq<ValidatorId>, stake: map<ValidatorId, nat>, i: nat, ordered: map<ValidatorId, nat>, total: nat)
    requires i <= |order|
  {
    && [] !in order[..i] && DuplicateFree(order[..i])
    && (forall v :: v in order[..i] ==> v in stake && stake[v] > 0)
    && ordered == (map v | v in order[..i] :: stake[v])
    && total == Sum(stake, Elements(order[..i])) <= MAX
  }

  lemma ListedStart(order: seq<ValidatorId>, stake: map<ValidatorId, nat>)
    ensures Listed(order, stake, 0, map[], 0)
  {
  }

  /** The next member is proper exactly when it passes the four checks. */
  lemma ListedStep(order: seq<ValidatorId>, stake: map<ValidatorId, nat>, i: nat, ordered: map<ValidatorId, nat>, total: nat)
    requires i < |order| && Listed(order, stake, i, ordered, total)
    ensures total <= MAX
    ensures var id := order[i];
            if id != [] && id !in ordered && id in stake && stake[id] > 0 && total + stake[id] <= MAX
            then Listed(order, stake, i + 1, ordered[id := stake[id]], total + stake[id])
            else !ProperStake(order, stake)
  {
    var id := order[i];
    assert order[..i + 1] == order[..i] + [id];
    ElementsOfPrefix(order, i);
    if id in ordered {
      var k :| 0 <= k < i && order[k] == id;
    } else if id != [] && id in stake && stake[id] > 0 {
      SumAdd(stake, Elements(order[..i]), id);
      if total + stake[id] > MAX && (forall v :: v in order ==> v in stake) {
        SumMonotone(stake, Elements(order[..i + 1]), Elements(order));
      }
    }
  }

  lemma ListedAll(order: seq<ValidatorId>, stake: map<ValidatorId, nat>, ordered: map<ValidatorId, nat>, total: nat)
    requires order != [] && Listed(order, stake, |order|, ordered, total)
    ensures ProperStake(order, stake)
    ensures ordered == (map v | v in order :: stake[v]) && total == Sum(stake, Elements(order))
  {
    assert order[..|order|] == order;
  }

  /** The claimed stake is the true stake of the voters, and meets the threshold of the whole order. */
  ghost predicate StakeConfirmed(
    c: Certificate, order: seq<ValidatorId>, stake: map<ValidatorId, nat>, quorum: Quorum)
  {
    && ProperStake(order, stake)
    && RequiredStake(quorum, Sum(stake, Elements(order))) == Some(c.threshold)
    && Elements(c.voters) <= Elements(order)
    && c.confirmed == Sum(stake, Elements(c.voters))
    && c.confirmed >= c.threshold
  }

  ghost predicate VerifiesWithStake(
    c: Certificate, order: seq<ValidatorId>, keys: set<ValidatorId>, stake: map<ValidatorId, nat>,
    quorum: Quorum, s: Signatures)
  {
    VerifiesAggregate(c, order, keys, s) && StakeConfirmed(c, order, stake, quorum)
  }

  lemma {:induction false} SameElementsSameSet(v: seq<ValidatorId>, w: seq<ValidatorId>)
    requires SameElements(v, w)
    ensures Elements(v) == Elements(w)
  {
    forall x ensures x in v <==> x in w {
      assert x in v <==> x in multiset(v);
      assert x in w <==> x in multiset(w);
    }
  }

  /** The summing loop of the stake check: distinct voters, each with a stake, no overflow. */
  method SumVoterStake(voters: seq<ValidatorId>, ordered: map<ValidatorId, nat>) returns (r: Option<nat>)
    requires StrictlyAscending(voters)
    requires forall v :: v in ordered ==> ordered[v] <= MAX
    ensures r.Some? <==> Elements(voters) <= ordered.Keys && Sum(ordered, Elements(voters)) <= MAX
    ensures r.Some? ==> r.value == Sum(ordered, Elements(voters))
  {
    var confirmed: nat := 0;
    for i := 0 to |voters|
      invariant Elements(voters[..i]) <= ordered.Keys
      invariant confirmed == Sum(ordered, Elements(voters[..i])) <= MAX
    {
      ElementsOfPrefix(voters, i);
      if voters[i] !in ordered {
        return None;
      }
      LessIrreflexive(voters[i]);
      assert voters[i] !in voters[..i];
      SumAdd(ordered, Elements(voters[..i]), voters[i]);
      if MAX - confirmed < ordered[voters[i]] {
        if Elements(voters) <= ordered.Keys {
          SumMonotone(ordered, Elements(voters[..i + 1]), Elements(voters));
        }
        return None;
      }
      confirmed := confirmed + ordered[voters[i]];
    }
    assert voters[..|voters|] == voters;
    return Some(confirmed);
  }

  /** The check accepts exactly the certificates whose confirmed stake is the true stake of distinct
      voters and reaches the quorum of the whole order. */
  method CheckConfirmedStake(
    c: Certificate, order: seq<ValidatorId>, stake: map<ValidatorId, nat>, quorum: Quorum)
    returns (ok: bool)
    requires VotersFromBitmap(order, c.bitmap).Some?
    requires SameElements(VotersFromBitmap(order, c.bitmap).value, c.voters)
    requires forall v :: v in stake ==> stake[v] <= MAX
    ensures ok <==> StakeConfirmed(c, order, stake, quorum)
  {
    hide VotersFromBitmap;
    var voters := VotersFromBitmap(order, c.bitmap).value;
    SameElementsSameSet(voters, c.voters);
    var stakes := StakeByValidatorOrder(order, stake);
    if stakes.None? {
      return false;
    }
    DecodedDistinct(order, c.bitmap);
    var (ordered, total) := stakes.value;
    var required := RequiredStake(quorum, total);
    if required.None? || c.threshold != required.value {
      return false;
    }
    var confirmed := SumVoterStake(voters, ordered);
    if Elements(voters) <= ordered.Keys {
      SumCongruent(ordered, stake, Elements(voters));
      SumMonotone(stake, Elements(voters), Elements(order));
    }
    if confirmed.None? || confirmed.value != c.confirmed || confirmed.value < required.value {
      return false;
    }
    return true;
  }

  /** Stake truth: an accepted certificate counts distinct voters at their registered stake, reaches the
      quorum, and every one of those voters signed this very ballot. */
  lemma StakeTruth(
    c: Certificate, order: seq<ValidatorId>, keys: set<ValidatorId>, stake: map<ValidatorId, nat>,
    quorum: Quorum, s: Signatures)
    requires VerifiesWithStake(c, order, keys, stake, quorum, s) && Unforgeable(s)
    ensures StrictlyAscending(c.voters) && Elements(c.voters) <= Elements(order)
    ensures c.confirmed == Sum(stake, Elements(c.voters))
    ensures Reaches(quorum, c.confirmed, Sum(stake, Elements(order)))
    ensures forall v :: v in c.voters ==> BallotOf(c, v) in s.signed
  {
    hide RequiredStake, VotersFromBitmap, Reaches;
    var voters := VotersFromBitmap(order, c.bitmap).value;
    SameElementsSameSet(voters, c.voters);
    RequiredStakeRange(quorum, Sum(stake, Elements(order)));
    RequiredStakeIsLeast(quorum, Sum(stake, Elements(order)), c.confirmed);
    var ballots := seq(|voters|, i requires 0 <= i < |voters| => BallotOf(c, voters[i]));
    assert s.verify(ballots, c.aggregate);
    forall v | v in c.voters ensures BallotOf(c, v) in s.signed {
      assert v in Elements(c.voters);
      assert v in Elements(voters);
      var i :| 0 <= i < |voters| && voters[i] == v;
      assert ballots[i] in ballots;
    }
  }
}
