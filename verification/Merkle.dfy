/** The Merkle branch of the coinbase and the tree it stands for. */
module Merkle {
  import opened Bytes

  function HashPair(env: Env, a: Hash, b: Hash): Hash {
    env.sha256d(a + b)
  }

  /** One level up the tree: neighbours are hashed together, an odd last node with itself. */
  function PairUp(env: Env, level: seq<Hash>): (up: seq<Hash>)
    ensures |up| == (|level| + 1) / 2
  {
    if level == [] then []
    else if |level| == 1 then [HashPair(env, level[0], level[0])]
    else [HashPair(env, level[0], level[1])] + PairUp(env, level[2..])
  }

  /** The parent at `i` is the hash of the children at 2i and 2i + 1, left one first, or of
      the left one twice where there is no right one. */
  predicate IsParent(env: Env, level: seq<Hash>, i: nat, parent: Hash)
    requires 2 * i < |level|
  {
    var left: Bytes, right: Bytes := level[2 * i], if 2 * i + 1 < |level| then level[2 * i + 1] else level[2 * i];
    parent == env.sha256d(left + right)
  }

  predicate IsLevelAbove(env: Env, level: seq<Hash>, up: seq<Hash>) {
    && |up| == (|level| + 1) / 2
    && forall i :: 0 <= i < |up| ==> IsParent(env, level, i, up[i])
  }

  lemma {:induction false} PairUpIsLevelAbove(env: Env, level: seq<Hash>)
    ensures IsLevelAbove(env, level, PairUp(env, level))
    decreases |level|
  {
    if |level| > 1 {
      var up, rest := PairUp(env, level), PairUp(env, level[2..]);
      PairUpIsLevelAbove(env, level[2..]);
      forall i | 0 <= i < |up|
        ensures IsParent(env, level, i, up[i])
      {
        if i > 0 {
          assert up[i] == rest[i - 1] && IsParent(env, level[2..], i - 1, rest[i - 1]);
        }
      }
    }
  }

  /** The root Bitcoin puts in the block header for these leaves. */
  function Root(env: Env, leaves: seq<Hash>): Hash
    requires leaves != []
    decreases |leaves|
  {
    if |leaves| == 1 then leaves[0] else Root(env, PairUp(env, leaves))
  }

  /** The siblings of the leftmost path of the tree over an unknown first leaf and `level`. */
  function Branch(env: Env, level: seq<Hash>): seq<Hash>
    decreases |level|
  {
    if level == [] then [] else [level[0]] + Branch(env, PairUp(env, level[1..]))
  }

  /** `levels` is the whole tree: the leaves, the levels above them, and `root` alone. */
  predicate IsTree(env: Env, leaves: seq<Hash>, levels: seq<seq<Hash>>, root: Hash) {
    && levels != [] && levels[0] == leaves && levels[|levels| - 1] == [root]
    && forall k :: 0 <= k < |levels| - 1 ==> |levels[k]| > 1 && IsLevelAbove(env, levels[k], levels[k + 1])
  }

  /** Climbing from the coinbase hash along a branch. */
  function Climb(env: Env, h: Hash, branch: seq<Hash>): Hash
    decreases |branch|
  {
    if branch == [] then h else Climb(env, HashPair(env, h, branch[0]), branch[1..])
  }

  /** The branch serves every coinbase: climbing it gives the root of the whole tree. */
  lemma {:induction false} BranchLeadsToRoot(env: Env, coinbase: Hash, level: seq<Hash>)
    ensures Climb(env, coinbase, Branch(env, level)) == Root(env, [coinbase] + level)
    decreases |level|
  {
    if level != [] {
      var up := PairUp(env, level[1..]);
      var tree := [coinbase] + level;
      assert tree[2..] == level[1..];
      assert PairUp(env, tree) == [HashPair(env, coinbase, level[0])] + up;
      BranchLeadsToRoot(env, HashPair(env, coinbase, level[0]), up);
    }
  }

  predicate IsNext(env: Env, hash: Hash, sibling: Hash, next: Hash) {
    var left: Bytes, right: Bytes := hash, sibling;
    next == env.sha256d(left + right)
  }

  /** The hashes met on the way: each hashed with the next sibling to its right. */
  predicate IsClimb(env: Env, start: Hash, path: seq<Hash>, chain: seq<Hash>) {
    && |chain| == |path| + 1 && chain[0] == start
    && forall i :: 0 <= i < |path| ==> IsNext(env, chain[i], path[i], chain[i + 1])
  }

  lemma {:induction false} ClimbIsChain(env: Env, start: Hash, path: seq<Hash>) returns (chain: seq<Hash>)
    ensures IsClimb(env, start, path, chain) && chain[|path|] == Climb(env, start, path)
    decreases |path|
  {
    chain := [start];
    if path != [] {
      var rest := ClimbIsChain(env, HashPair(env, start, path[0]), path[1..]);
      chain := [start] + rest;
      OneLinkMore(env, start, path[0], path[1..], rest);
      assert path == [path[0]] + path[1..];
    }
  }

  /** In the tree over the coinbase and all other leaves, the chain climbs the leftmost
      nodes, the branch has their right siblings, and the chain ends at the root. */
  lemma {:induction false} BranchInTree(env: Env, coinbase: Hash, level: seq<Hash>)
    returns (levels: seq<seq<Hash>>, chain: seq<Hash>)
    ensures var branch := Branch(env, level);
            && IsClimb(env, coinbase, branch, chain) && |levels| == |chain|
            && IsTree(env, [coinbase] + level, levels, chain[|branch|])
            && forall k :: 0 <= k < |branch| ==>
              |levels[k]| > 1 && levels[k][0] == chain[k] && levels[k][1] == branch[k]
    decreases |level|
  {
    var tree := [coinbase] + level;
    if level == [] {
      levels, chain := [tree], [coinbase];
    } else {
      var up := PairUp(env, level[1..]);
      var next := HashPair(env, coinbase, level[0]);
      assert tree[2..] == level[1..] && PairUp(env, tree) == [next] + up;
      PairUpIsLevelAbove(env, tree);
      var above, rest := BranchInTree(env, next, up);
      levels, chain := [tree] + above, [coinbase] + rest;
      OneLevelMore(env, tree, above, rest[|rest| - 1]);
      OneLinkMore(env, coinbase, level[0], Branch(env, up), rest);
    }
  }

  lemma {:induction false} OneLevelMore(env: Env, tree: seq<Hash>, above: seq<seq<Hash>>, root: Hash)
    requires |tree| > 1 && above != [] && IsLevelAbove(env, tree, above[0]) && IsTree(env, above[0], above, root)
    ensures IsTree(env, tree, [tree] + above, root)
  {
    var levels := [tree] + above;
    forall k | 0 <= k < |levels| - 1 ensures |levels[k]| > 1 && IsLevelAbove(env, levels[k], levels[k + 1]) {
      if k > 0 {
        assert levels[k] == above[k - 1] && levels[k + 1] == above[k];
      }
    }
  }

  lemma {:induction false} OneLinkMore(env: Env, start: Hash, sibling: Hash, path: seq<Hash>, rest: seq<Hash>)
    requires IsClimb(env, HashPair(env, start, sibling), path, rest)
    ensures IsClimb(env, start, [sibling] + path, [start] + rest)
  {
    var all, chain := [sibling] + path, [start] + rest;
    forall i | 0 <= i < |all| ensures IsNext(env, chain[i], all[i], chain[i + 1]) {
      if i > 0 {
        assert chain[i] == rest[i - 1] && all[i] == path[i - 1];
      }
    }
  }

  function FloorLog2(n: nat): nat
    requires n >= 1
  {
    if n == 1 then 0 else 1 + FloorLog2(n / 2)
  }

  lemma {:induction false} BranchLength(env: Env, level: seq<Hash>)
    ensures |Branch(env, level)| == if level == [] then 0 else FloorLog2(|level|) + 1
    decreases |level|
  {
    if level != [] {
      BranchLength(env, PairUp(env, level[1..]));
    }
  }

  function InternalOrder(txids: seq<Hash>): (level: seq<Hash>)
    ensures |level| == |txids|
    ensures forall i :: 0 <= i < |txids| ==> level[i] == Reverse(txids[i])
  {
    seq(|txids|, i requires 0 <= i < |txids| => Reverse(txids[i]))
  }

  function From(level: seq<Hash>, i: nat): seq<Hash> {
    if i < |level| then level[i..] else []
  }

  lemma {:induction false} PairOff(env: Env, level: seq<Hash>, i: nat)
    requires i < |level|
    ensures PairUp(env, From(level, i))
            == [HashPair(env, level[i], if i + 1 < |level| then level[i + 1] else level[i])]
              + PairUp(env, From(level, i + 2))
  {
    var rest := level[i..];
    if i + 1 < |level| {
      assert rest[2..] == From(level, i + 2);
    }
  }

  /** `build_merkle_branch`, from txids in display order. */
  method BuildMerkleBranch(env: Env, txids: seq<Hash>) returns (branch: seq<Hash>)
    ensures branch == Branch(env, InternalOrder(txids))
  {
    branch := [];
    if txids == [] {
      return;
    }
    var level := InternalOrder(txids);
    while true
      invariant level != []
      invariant branch + Branch(env, level) == Branch(env, InternalOrder(txids))
      decreases |level|
    {
      Associative(branch, [level[0]], Branch(env, PairUp(env, level[1..])));
      branch := branch + [level[0]];
      if |level| == 1 {
        break;
      }
      level := MergeRest(env, level);
    }
    assert branch + [] == branch;
  }

  /** Its inner loop: from index 1, the last node with itself if it has no neighbour. */
  method MergeRest(env: Env, level: seq<Hash>) returns (next: seq<Hash>)
    requires |level| > 1
    ensures next == PairUp(env, level[1..])
  {
    next := [];
    var i := 1;
    while i < |level|
      invariant 1 <= i
      invariant next + PairUp(env, From(level, i)) == PairUp(env, level[1..])
    {
      var a := level[i];
      var b := if i + 1 < |level| then level[i + 1] else a;
      PairOff(env, level, i);
      Associative(next, [HashPair(env, a, b)], PairUp(env, From(level, i + 2)));
      next := next + [HashPair(env, a, b)];
      i := i + 2;
    }
    assert next + [] == next;
  }

  /** The loop of the share handler. */
  method ClimbBranch(env: Env, start: Hash, path: seq<Hash>) returns (hash: Hash)
    ensures hash == Climb(env, start, path)
    ensures exists chain: seq<Hash> :: IsClimb(env, start, path, chain) && hash == chain[|path|]
  {
    hash := start;
    for i := 0 to |path|
      invariant Climb(env, hash, path[i..]) == Climb(env, start, path)
    {
      assert path[i..][1..] == path[i + 1..];
      hash := env.sha256d(hash + path[i]);
    }
    ghost var chain := ClimbIsChain(env, start, path);
  }
}
