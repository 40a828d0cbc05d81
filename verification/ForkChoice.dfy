/** Fork choice: the branch from the main chain to a candidate tip, and the walks that find it. */
module ForkChoice {

  import opened Blocks
  import opened LedgerIndex
  import opened LedgerStore
  import opened Votes
  import opened Wrappers

  /** Along stored parents heights fall by one. */
  ghost predicate Falling(blocks: map<Hash, Block>) {
    forall h :: h in blocks && blocks[h].parent in blocks ==> blocks[h].height == blocks[blocks[h].parent].height + 1
  }

  ghost function Rank(blocks: map<Hash, Block>, h: Hash): nat {
    if h in blocks then blocks[h].height else 0
  }

  /** The blocks between the trunk and `h`, from the child of a trunk block up to `h`. */
  ghost function Branch(blocks: map<Hash, Block>, trunk: set<Hash>, h: Hash): (r: Option<seq<Stored>>)
    requires Falling(blocks)
    ensures r.Some? ==> |r.value| > 0
    decreases Rank(blocks, h)
  {
    if h !in blocks then None
    else if blocks[h].parent in trunk then Some([Stored(h, blocks[h])])
    else if blocks[h].parent !in blocks then None
    else
      var lower := Branch(blocks, trunk, blocks[h].parent);
      if lower.None? then None else Some(lower.value + [Stored(h, blocks[h])])
  }

  /** Where a branch leaves the trunk. */
  function RootOf(branch: seq<Stored>): Hash
    requires |branch| > 0
  {
    branch[0].block.parent
  }

  function Below(branch: seq<Stored>, i: nat): Hash
    requires i < |branch|
  {
    if i == 0 then RootOf(branch) else branch[i - 1].hash
  }

  predicate ParentAt(branch: seq<Stored>, i: nat)
    requires i < |branch|
  {
    branch[i].block.parent == Below(branch, i)
  }

  lemma {:induction false} BranchShape(blocks: map<Hash, Block>, trunk: set<Hash>, h: Hash)
    requires Falling(blocks) && Branch(blocks, trunk, h).Some?
    ensures var br := Branch(blocks, trunk, h).value;
            && br[|br| - 1] == Stored(h, blocks[h]) && RootOf(br) in trunk
            && (forall i :: 0 <= i < |br| ==> br[i].hash in blocks && blocks[br[i].hash] == br[i].block)
            && (forall i: nat :: i < |br| ==> ParentAt(br, i))
            && (forall i :: 0 <= i < |br| - 1 ==> br[i].hash !in trunk)
            && (forall i :: 0 <= i < |br| ==> br[i].block.height == br[0].block.height + i)
    decreases Rank(blocks, h)
  {
    if blocks[h].parent !in trunk {
      BranchShape(blocks, trunk, blocks[h].parent);
      var lower, br := Branch(blocks, trunk, blocks[h].parent).value, Branch(blocks, trunk, h).value;
      forall i: nat | i < |br| ensures ParentAt(br, i) {
        assert i < |lower| ==> ParentAt(lower, i);
      }
    }
  }

  /** Narrowing the trunk to the block a branch leaves it at does not change the branch. */
  lemma {:induction false} BranchFromRoot(blocks: map<Hash, Block>, trunk: set<Hash>, h: Hash)
    requires Falling(blocks) && Branch(blocks, trunk, h).Some?
    ensures Branch(blocks, {RootOf(Branch(blocks, trunk, h).value)}, h) == Branch(blocks, trunk, h)
    decreases Rank(blocks, h)
  {
    var root := RootOf(Branch(blocks, trunk, h).value);
    if blocks[h].parent !in trunk {
      BranchFromRoot(blocks, trunk, blocks[h].parent);
      BranchShape(blocks, trunk, h);
      assert root in trunk;
    }
  }

  lemma {:induction false} BranchNeedsTrunk(blocks: map<Hash, Block>, trunk: set<Hash>, root: Hash, h: Hash)
    requires Falling(blocks) && root in trunk && Branch(blocks, {root}, h).Some?
    ensures Branch(blocks, trunk, h).Some?
    decreases Rank(blocks, h)
  {
    if blocks[h].parent !in trunk {
      BranchNeedsTrunk(blocks, trunk, root, blocks[h].parent);
    }
  }

  function Hashes(xs: seq<Stored>): (r: seq<Hash>)
    ensures |r| == |xs| && forall i :: 0 <= i < |xs| ==> r[i] == xs[i].hash
  {
    seq(|xs|, i requires 0 <= i < |xs| => xs[i].hash)
  }

  // ----- Reversing in place -----

  ghost predicate IsReverse(r: seq<Hash>, s: seq<Hash>) {
    |r| == |s| && forall i :: 0 <= i < |s| ==> r[i] == s[|s| - 1 - i]
  }

  method Reverse(s: seq<Hash>) returns (r: seq<Hash>)
    ensures IsReverse(r, s)
  {
    r := s;
    var left, right := 0, |s| - 1;
    while left < right
      invariant |r| == |s| && 0 <= left && right == |s| - 1 - left && left <= right + 2
      invariant forall i :: 0 <= i < |s| && (i < left || i > right) ==> r[i] == s[|s| - 1 - i]
      invariant forall i :: left <= i <= right ==> r[i] == s[i]
    {
      r := r[left := r[right]][right := r[left]];
      left, right := left + 1, right - 1;
    }
  }

  /** The walk from a tip down to a given ancestor, its hashes in ascending order. */
  method CollectNewBlocks(t: Tables, tip: Hash, ancestor: Hash) returns (r: Option<seq<Hash>>)
    requires Falling(t.blocks) && tip in t.blocks
    ensures tip == ancestor ==> r == Some([])
    ensures tip != ancestor ==> (r.Some? <==> Branch(t.blocks, {ancestor}, tip).Some?)
    ensures tip != ancestor && r.Some? ==> r.value == Hashes(Branch(t.blocks, {ancestor}, tip).value)
  {
    if tip == ancestor {
      return Some([]);
    }
    ghost var whole := Branch(t.blocks, {ancestor}, tip);
    var reversed: seq<Hash> := [];
    ghost var upper: seq<Stored> := [];
    var cursor := tip;
    assert whole.Some? ==> whole.value + [] == whole.value;
    while true
      invariant cursor in t.blocks
      invariant IsReverse(reversed, Hashes(upper))
      invariant var lower := Branch(t.blocks, {ancestor}, cursor);
                whole == if lower.None? then None else Some(lower.value + upper)
      decreases t.blocks[cursor].height
    {
      var block := t.blocks[cursor];
      reversed := reversed + [cursor];
      ghost var above := upper;
      upper := [Stored(cursor, block)] + upper;
      if block.parent == ancestor {
        break;
      }
      if block.parent !in t.blocks {
        return None;
      }
      ghost var lower := Branch(t.blocks, {ancestor}, block.parent);
      if lower.Some? {
        assert lower.value + [Stored(cursor, block)] + above == lower.value + upper;
      }
      cursor := block.parent;
    }
    var list := Reverse(reversed);
    assert whole == Some(upper);
    assert list == Hashes(upper);
    return Some(list);
  }
}
