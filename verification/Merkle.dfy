/** Merkle proofs (helper/util.go) for the trees of RFC 6962: sections 2.1 (Merkle Hash Trees)
    and 2.1.1 (Merkle Audit Paths). */
module Merkle {
  import opened Bytes
  import opened GoInt
  import opened Options

  // ---------------------------------------------------------------- where a tree splits

  predicate PowerOfTwo(k: nat) {
    k == 1 || (k > 0 && k % 2 == 0 && PowerOfTwo(k / 2))
  }

  /** bits.Len: how many binary digits a number has. */
  function BitLen(n: nat): nat {
    if n == 0 then 0 else 1 + BitLen(n / 2)
  }

  function Shift(n: nat): (k: nat)
    ensures k > 0 && PowerOfTwo(k)
  {
    if n == 0 then 1 else 2 * Shift(n - 1)
  }

  lemma {:induction false} BitLenBounds(n: nat)
    requires n > 0
    ensures BitLen(n) > 0 && Shift(BitLen(n) - 1) <= n < Shift(BitLen(n))
  {
    if n > 1 {
      BitLenBounds(n / 2);
    }
  }

  function GetSplitPoint(length: int): (k: nat)
    requires length >= 1
    ensures length >= 2 ==> PowerOfTwo(k) && k < length <= 2 * k
  {
    BitLenBounds(length);
    var top := Shift(BitLen(length) - 1);
    if top == length then top / 2 else top
  }

  /** A power of two is not between another one and its double. */
  lemma {:induction false} PowersApart(a: nat, b: nat)
    requires PowerOfTwo(a) && PowerOfTwo(b) && a < b
    ensures 2 * a <= b
  {
    if a > 1 {
      PowersApart(a / 2, b / 2);
    }
  }

  /** The split point is the largest power of two smaller than the length. */
  lemma SplitPointIsLargest(length: int, k: nat)
    requires length >= 2
    ensures GetSplitPoint(length) == k <==> PowerOfTwo(k) && k < length <= 2 * k
  {
    var split := GetSplitPoint(length);
    if PowerOfTwo(k) && k < length <= 2 * k {
      if k < split {
        PowersApart(k, split);
      } else if split < k {
        PowersApart(split, k);
      }
    }
  }

  // ---------------------------------------------------------------- trees and audit paths

  function InnerHash(h: Hasher, left: seq<Byte>, right: seq<Byte>): Digest {
    h([1] + left + right)
  }

  /** The Merkle tree hash over a list of leaf hashes. */
  function Root(h: Hasher, leaves: seq<Digest>): Digest
    requires leaves != []
    decreases |leaves|
  {
    if |leaves| == 1 then leaves[0]
    else
      var k := GetSplitPoint(|leaves|);
      InnerHash(h, Root(h, leaves[..k]), Root(h, leaves[k..]))
  }

  /** The audit path of a leaf: the roots of the subtrees beside it, from the leaf up. */
  function Path(h: Hasher, leaves: seq<Digest>, index: nat): seq<Digest>
    requires index < |leaves|
    decreases |leaves|
  {
    if |leaves| == 1 then []
    else
      var k := GetSplitPoint(|leaves|);
      if index < k then Path(h, leaves[..k], index) + [Root(h, leaves[k..])]
      else Path(h, leaves[k..], index - k) + [Root(h, leaves[..k])]
  }

  /** How many aunts a leaf has. */
  function Depth(index: nat, total: int): nat
    requires index < total
    decreases total
  {
    if total == 1 then 0
    else
      var k := GetSplitPoint(total);
      1 + if index < k then Depth(index, k) else Depth(index - k, total - k)
  }

  // ---------------------------------------------------------------- proofs

  /** The root that a leaf hash and its aunts give, or None. */
  function RootFrom(h: Hasher, index: int, total: int, leaf: seq<Byte>, aunts: seq<seq<Byte>>): Option<seq<Byte>>
    decreases total
  {
    if !(0 <= index < total) then None
    else if total == 1 then if aunts == [] then Some(leaf) else None
    else if aunts == [] then None
    else
      var k, aunt := GetSplitPoint(total), aunts[|aunts| - 1];
      if index < k then
        match RootFrom(h, index, k, leaf, aunts[..|aunts| - 1])
        case None => None
        case Some(left) => Some(InnerHash(h, left, aunt))
      else
        match RootFrom(h, index - k, total - k, leaf, aunts[..|aunts| - 1])
        case None => None
        case Some(right) => Some(InnerHash(h, aunt, right))
  }

  /** The aunts, each after a byte that says on which side it is: 0 left, 1 right. */
  function Directed(index: nat, total: int, aunts: seq<seq<Byte>>): seq<seq<Byte>>
    requires index < total && |aunts| == Depth(index, total)
    decreases total
  {
    if total == 1 then []
    else
      var k, rest, aunt := GetSplitPoint(total), aunts[..|aunts| - 1], aunts[|aunts| - 1];
      if index < k then Directed(index, k, rest) + [[1] + aunt] else Directed(index - k, total - k, rest) + [[0] + aunt]
  }

  /** There is no root exactly when the index or the number of aunts is wrong. */
  lemma {:induction false} RootExistsIff(h: Hasher, index: int, total: int, leaf: seq<Byte>, aunts: seq<seq<Byte>>)
    ensures RootFrom(h, index, total, leaf, aunts).Some? <==> 0 <= index < total && |aunts| == Depth(index, total)
    decreases total
  {
    hide GetSplitPoint;
    if 0 <= index < total && total > 1 && aunts != [] {
      var k, rest := GetSplitPoint(total), aunts[..|aunts| - 1];
      if index < k {
        RootExistsIff(h, index, k, leaf, rest);
      } else {
        RootExistsIff(h, index - k, total - k, leaf, rest);
      }
    }
  }

  /** The list of proof entries that the code appends to. */
  class ProofList {
    var entries: seq<seq<Byte>>

    constructor ()
      ensures entries == []
    {
      entries := [];
    }
  }

  /** Appends the directed aunts to the list; a proof that fails appends nothing. */
  method ComputeHashFromAunts(h: Hasher, index: int, total: int, leafHash: seq<Byte>, innerHashes: seq<seq<Byte>>,
      list: ProofList)
    returns (root: Option<seq<Byte>>)
    modifies list
    ensures root == RootFrom(h, index, total, leafHash, innerHashes)
    ensures root.Some? <==> 0 <= index < total && |innerHashes| == Depth(index, total)
    ensures list.entries == old(list.entries) + if root.Some? then Directed(index, total, innerHashes) else []
    decreases total
  {
    hide GetSplitPoint, PowerOfTwo, InnerHash;
    if index >= total || index < 0 || total <= 0 {
      return None;
    }
    if total == 1 {
      if |innerHashes| != 0 {
        return None;
      }
      return Some(leafHash);
    }
    if |innerHashes| == 0 {
      return None;
    }
    var numLeft := GetSplitPoint(total);
    var aunt := innerHashes[|innerHashes| - 1];
    if index < numLeft {
      var leftHash := ComputeHashFromAunts(h, index, numLeft, leafHash, innerHashes[..|innerHashes| - 1], list);
      if leftHash.None? {
        return None;
      }
      list.entries := list.entries + [[1] + aunt];
      return Some(InnerHash(h, leftHash.value, aunt));
    }
    var rightHash := ComputeHashFromAunts(h, index - numLeft, total - numLeft, leafHash,
      innerHashes[..|innerHashes| - 1], list);
    if rightHash.None? {
      return None;
    }
    list.entries := list.entries + [[0] + aunt];
    return Some(InnerHash(h, aunt, rightHash.value));
  }

  /** What a verifier does with a proof list: hash upwards, on the side each entry names. */
  function Fold(h: Hasher, leaf: seq<Byte>, entries: seq<seq<Byte>>): seq<Byte>
  {
    if entries == [] then leaf
    else
      var below, entry := Fold(h, leaf, entries[..|entries| - 1]), entries[|entries| - 1];
      if entry != [] && entry[0] == 1 then InnerHash(h, below, entry[1..])
      else if entry != [] then InnerHash(h, entry[1..], below)
      else below
  }

  lemma FoldNothing(h: Hasher, leaf: seq<Byte>)
    ensures Fold(h, leaf, []) == leaf
  {
  }

  lemma FoldStep(h: Hasher, leaf: seq<Byte>, entries: seq<seq<Byte>>, aunt: seq<Byte>)
    ensures Fold(h, leaf, entries + [[1] + aunt]) == InnerHash(h, Fold(h, leaf, entries), aunt)
    ensures Fold(h, leaf, entries + [[0] + aunt]) == InnerHash(h, aunt, Fold(h, leaf, entries))
  {
    hide InnerHash;
    var right, left := entries + [[1] + aunt], entries + [[0] + aunt];
    assert right[..|entries|] == entries && left[..|entries|] == entries;
    assert ([1] + aunt)[1..] == aunt && ([0] + aunt)[1..] == aunt;
  }

  lemma {:induction false} FoldGivesRoot(h: Hasher, index: nat, total: int, leaf: seq<Byte>, aunts: seq<seq<Byte>>)
    requires index < total && |aunts| == Depth(index, total)
    ensures RootFrom(h, index, total, leaf, aunts) == Some(Fold(h, leaf, Directed(index, total, aunts)))
    decreases total
  {
    hide GetSplitPoint, Fold, InnerHash;
    FoldNothing(h, leaf);
    if total > 1 {
      var k, rest, aunt := GetSplitPoint(total), aunts[..|aunts| - 1], aunts[|aunts| - 1];
      if index < k {
        FoldGivesRoot(h, index, k, leaf, rest);
        FoldStep(h, leaf, Directed(index, k, rest), aunt);
      } else {
        FoldGivesRoot(h, index - k, total - k, leaf, rest);
        FoldStep(h, leaf, Directed(index - k, total - k, rest), aunt);
      }
    }
  }

  /** The proof list of a tree's own audit path; folding it gives the tree's root. */
  method GetMerkleProofList(h: Hasher, index: int, total: int, leafHash: seq<Byte>, aunts: seq<seq<Byte>>)
    returns (result: seq<seq<Byte>>)
    ensures 0 <= index < total && |aunts| == Depth(index, total) ==>
              && result == Directed(index, total, aunts)
              && Some(Fold(h, leafHash, result)) == RootFrom(h, index, total, leafHash, aunts)
    ensures !(0 <= index < total && |aunts| == Depth(index, total)) ==> result == []
  {
    var list := new ProofList();
    var _ := ComputeHashFromAunts(h, index, total, leafHash, aunts, list);
    result := list.entries;
    if 0 <= index < total && |aunts| == Depth(index, total) {
      FoldGivesRoot(h, index, total, leafHash, aunts);
    }
  }

  lemma {:induction false} PathLength(h: Hasher, leaves: seq<Digest>, index: nat)
    requires index < |leaves|
    ensures |Path(h, leaves, index)| == Depth(index, |leaves|)
    decreases |leaves|
  {
    hide GetSplitPoint;
    if |leaves| > 1 {
      var k := GetSplitPoint(|leaves|);
      if index < k {
        PathLength(h, leaves[..k], index);
      } else {
        PathLength(h, leaves[k..], index - k);
      }
    }
  }

  /** The audit path of a leaf leads to the root of the tree ... */
  lemma {:induction false} PathGivesRoot(h: Hasher, leaves: seq<Digest>, index: nat)
    requires index < |leaves|
    ensures RootFrom(h, index, |leaves|, leaves[index], Path(h, leaves, index)) == Some(Root(h, leaves))
    decreases |leaves|
  {
    hide GetSplitPoint;
    if |leaves| > 1 {
      var k := GetSplitPoint(|leaves|);
      var path := Path(h, leaves, index);
      if index < k {
        PathGivesRoot(h, leaves[..k], index);
        assert path[..|path| - 1] == Path(h, leaves[..k], index);
      } else {
        PathGivesRoot(h, leaves[k..], index - k);
        assert path[..|path| - 1] == Path(h, leaves[k..], index - k);
      }
    }
  }

  /** ... and so does folding its proof list. */
  lemma ProofListGivesRoot(h: Hasher, leaves: seq<Digest>, index: nat)
    requires index < |leaves|
    ensures |Path(h, leaves, index)| == Depth(index, |leaves|)
    ensures Fold(h, leaves[index], Directed(index, |leaves|, Path(h, leaves, index))) == Root(h, leaves)
  {
    PathLength(h, leaves, index);
    PathGivesRoot(h, leaves, index);
    FoldGivesRoot(h, index, |leaves|, leaves[index], Path(h, leaves, index));
  }

  // ---------------------------------------------------------------- the tree and the sides, written out

  /** A list of one leaf has the leaf for its root, a longer one the hash of the byte 1 and the roots of its first
      k leaves and of the others, k being the largest power of two smaller than its length. */
  lemma RootIsTreeHash(h: Hasher, leaves: seq<Digest>, k: nat)
    requires leaves != []
    ensures |leaves| == 1 ==> Root(h, leaves) == leaves[0]
    ensures PowerOfTwo(k) && k < |leaves| <= 2 * k ==>
              Root(h, leaves) == h([1] + Root(h, leaves[..k]) + Root(h, leaves[k..]))
  {
    if PowerOfTwo(k) && k < |leaves| <= 2 * k {
      SplitPointIsLargest(|leaves|, k);
    }
  }

  lemma ShiftStep(n: nat)
    ensures Shift(0) == 1 && Shift(n + 1) == 2 * Shift(n)
  {
  }

  lemma {:induction false} ShiftSum(a: nat, b: nat)
    ensures Shift(a + b) == Shift(a) * Shift(b)
  {
    hide Shift, PowerOfTwo;
    ShiftStep(0);
    if b > 0 {
      ShiftSum(a, b - 1);
      ShiftStep(b - 1);
      ShiftStep(a + b - 1);
      assert 2 * (Shift(a) * Shift(b - 1)) == Shift(a) * (2 * Shift(b - 1));
    }
  }

  /** Taking away a higher power of two leaves a lower bit as it is. */
  lemma LowerBit(index: nat, i: nat, d: nat)
    requires i < d && Shift(d) <= index
    ensures (index - Shift(d)) / Shift(i) % 2 == index / Shift(i) % 2
  {
    hide Shift, PowerOfTwo;
    var c := Shift(d - 1 - i);
    ShiftStep(d - 1);
    ShiftSum(i, d - 1 - i);
    assert Shift(i) * (2 * c) == 2 * (Shift(i) * c);
    EvenShift(index - Shift(d), Shift(i), c);
  }

  lemma SplitOfShift(d: nat)
    ensures Shift(d + 1) == 2 * Shift(d) && GetSplitPoint(Shift(d + 1)) == Shift(d)
  {
    SplitPointIsLargest(Shift(d + 1), Shift(d));
  }

  lemma TopBit(index: nat, d: nat)
    requires index < 2 * Shift(d)
    ensures index / Shift(d) % 2 == if index < Shift(d) then 0 else 1
  {
    hide Shift;
    if index < Shift(d) {
      DivModFromParts(index, 0, Shift(d), index);
    } else {
      DivModFromParts(index, 1, Shift(d), index - Shift(d));
    }
  }

  /** The entry has the aunt, after a byte that is 0 exactly when digit i of the index is one. */
  predicate SideIsBit(index: nat, i: nat, aunt: seq<Byte>, entry: seq<Byte>) {
    entry == [1 - index / Shift(i) % 2] + aunt
  }

  lemma LowerSides(index: nat, i: nat, d: nat, aunt: seq<Byte>, entry: seq<Byte>)
    requires i < d && Shift(d) <= index && SideIsBit(index - Shift(d), i, aunt, entry)
    ensures SideIsBit(index, i, aunt, entry)
  {
    hide Shift;
    LowerBit(index, i, d);
  }

  lemma TopSide(index: nat, d: nat, aunt: seq<Byte>)
    requires index < 2 * Shift(d)
    ensures SideIsBit(index, d, aunt, if index < Shift(d) then [1] + aunt else [0] + aunt)
  {
    hide Shift;
    TopBit(index, d);
  }

  lemma DirectedStep(index: nat, total: int, k: nat, aunts: seq<seq<Byte>>)
    requires index < total && total > 1 && k == GetSplitPoint(total) && |aunts| == Depth(index, total)
    ensures |aunts| > 0 && |aunts| - 1 == if index < k then Depth(index, k) else Depth(index - k, total - k)
    ensures var rest, aunt := aunts[..|aunts| - 1], aunts[|aunts| - 1];
            Directed(index, total, aunts) == if index < k then Directed(index, k, rest) + [[1] + aunt]
                                             else Directed(index - k, total - k, rest) + [[0] + aunt]
  {
    hide GetSplitPoint;
  }

  lemma DepthStep(index: nat, total: int, k: nat)
    requires index < total && total > 1 && k == GetSplitPoint(total)
    ensures k < total && Depth(index, total) == 1 + if index < k then Depth(index, k) else Depth(index - k, total - k)
  {
    hide GetSplitPoint;
  }

  lemma {:induction false} DepthOfComplete(index: nat, d: nat)
    requires index < Shift(d)
    ensures Depth(index, Shift(d)) == d
  {
    hide Shift, GetSplitPoint, PowerOfTwo;
    ShiftStep(0);
    if d > 0 {
      SplitOfShift(d - 1);
      hide Depth;
      DepthStep(index, Shift(d), Shift(d - 1));
      DepthOfComplete(if index < Shift(d - 1) then index else index - Shift(d - 1), d - 1);
    }
  }

  lemma NoSides(index: nat, aunts: seq<seq<Byte>>)
    requires index < 1 && aunts == []
    ensures Depth(index, 1) == 0 && Directed(index, 1, aunts) == []
  {
  }

  /** In a complete tree of 2^d leaves the sides are the binary digits of the index: the aunt of level i is on the
      left exactly when digit i is one. */
  lemma {:induction false} DirectionsAreBits(index: nat, d: nat, aunts: seq<seq<Byte>>)
    requires index < Shift(d) && |aunts| == d
    ensures Depth(index, Shift(d)) == d && |Directed(index, Shift(d), aunts)| == d
    ensures forall i :: 0 <= i < d ==> SideIsBit(index, i, aunts[i], Directed(index, Shift(d), aunts)[i])
  {
    hide Shift, GetSplitPoint, PowerOfTwo, Directed, Depth, SideIsBit;
    ShiftStep(0);
    DepthOfComplete(index, d);
    if d == 0 {
      NoSides(index, aunts);
    } else {
      var k, rest := Shift(d - 1), aunts[..d - 1];
      SplitOfShift(d - 1);
      DirectedStep(index, Shift(d), k, aunts);
      TopSide(index, d - 1, aunts[d - 1]);
      if index < k {
        DirectionsAreBits(index, d - 1, rest);
      } else {
        DirectionsAreBits(index - k, d - 1, rest);
        forall i | 0 <= i < d - 1
          ensures SideIsBit(index, i, rest[i], Directed(index - k, k, rest)[i])
        {
          LowerSides(index, i, d - 1, rest[i], Directed(index - k, k, rest)[i]);
        }
      }
    }
  }

  // ---------------------------------------------------------------- nothing else leads to the root

  /** What is hashed along the way up in the tree from a leaf. */
  function TreeInputs(h: Hasher, leaves: seq<Digest>, index: nat): set<seq<Byte>>
    requires index < |leaves|
    decreases |leaves|
  {
    if |leaves| == 1 then {}
    else
      var k := GetSplitPoint(|leaves|);
      {[1] + Root(h, leaves[..k]) + Root(h, leaves[k..])}
      + if index < k then TreeInputs(h, leaves[..k], index) else TreeInputs(h, leaves[k..], index - k)
  }

  /** What is hashed in checking a proof. */
  function ProofInputs(h: Hasher, index: int, total: int, leaf: Digest, aunts: seq<Digest>): set<seq<Byte>>
    decreases total
  {
    if !(0 <= index < total) || total == 1 || aunts == [] then {}
    else
      var k, rest, aunt := GetSplitPoint(total), aunts[..|aunts| - 1], aunts[|aunts| - 1];
      if index < k then
        var left := RootFrom(h, index, k, leaf, rest);
        (if left.Some? then {[1] + left.value + aunt} else {}) + ProofInputs(h, index, k, leaf, rest)
      else
        var right := RootFrom(h, index - k, total - k, leaf, rest);
        (if right.Some? then {[1] + aunt + right.value} else {}) + ProofInputs(h, index - k, total - k, leaf, rest)
  }

  predicate NoCollision(h: Hasher, a: set<seq<Byte>>, b: set<seq<Byte>>) {
    forall x, y :: x in a && y in b && h(x) == h(y) ==> x == y
  }

  lemma {:induction false} RootIsDigest(h: Hasher, index: int, total: int, leaf: Digest, aunts: seq<Digest>)
    ensures var r := RootFrom(h, index, total, leaf, aunts); r.Some? ==> |r.value| == 32
  {
    hide GetSplitPoint;
  }

  lemma SameParts(a: seq<Byte>, b: seq<Byte>, c: seq<Byte>, d: seq<Byte>)
    requires |a| == |c| && [1] + a + b == [1] + c + d
    ensures a == c && b == d
  {
    assert ([1] + a + b)[1..][..|a|] == a && ([1] + c + d)[1..][..|c|] == c;
    assert ([1] + a + b)[1..][|a|..] == b && ([1] + c + d)[1..][|c|..] == d;
  }

  lemma TopHashesAgree(h: Hasher, left: Digest, right: Digest, a: seq<Byte>, b: seq<Byte>, tree: set<seq<Byte>>,
      proof: set<seq<Byte>>)
    requires |a| == 32 && InnerHash(h, a, b) == InnerHash(h, left, right) && NoCollision(h, tree, proof)
    requires [1] + left + right in tree && [1] + a + b in proof
    ensures a == left && b == right
  {
    SameParts(left, right, a, b);
  }

  lemma FewerInputs(h: Hasher, a: set<seq<Byte>>, b: set<seq<Byte>>, a': set<seq<Byte>>, b': set<seq<Byte>>)
    requires NoCollision(h, a, b) && a' <= a && b' <= b
    ensures NoCollision(h, a', b')
  {
  }

  /** A proof that reaches the root has the right top aunt, and its rest reaches the root of
      the subtree. */
  lemma LeftSubproof(h: Hasher, leaves: seq<Digest>, index: nat, leaf: Digest, aunts: seq<Digest>)
    requires 1 < |leaves| && index < GetSplitPoint(|leaves|)
    requires RootFrom(h, index, |leaves|, leaf, aunts) == Some(Root(h, leaves))
    requires NoCollision(h, TreeInputs(h, leaves, index), ProofInputs(h, index, |leaves|, leaf, aunts))
    ensures var k, n := GetSplitPoint(|leaves|), |aunts| - 1;
            && n >= 0 && aunts[n] == Root(h, leaves[k..])
            && RootFrom(h, index, k, leaf, aunts[..n]) == Some(Root(h, leaves[..k]))
            && NoCollision(h, TreeInputs(h, leaves[..k], index), ProofInputs(h, index, k, leaf, aunts[..n]))
  {
    hide GetSplitPoint, InnerHash, NoCollision;
    var k, n := GetSplitPoint(|leaves|), |aunts| - 1;
    var r := RootFrom(h, index, k, leaf, aunts[..n]);
    var tree, proof := TreeInputs(h, leaves, index), ProofInputs(h, index, |leaves|, leaf, aunts);
    RootIsDigest(h, index, k, leaf, aunts[..n]);
    TopHashesAgree(h, Root(h, leaves[..k]), Root(h, leaves[k..]), r.value, aunts[n], tree, proof);
    FewerInputs(h, tree, proof, TreeInputs(h, leaves[..k], index), ProofInputs(h, index, k, leaf, aunts[..n]));
  }

  lemma RightSubproof(h: Hasher, leaves: seq<Digest>, index: nat, leaf: Digest, aunts: seq<Digest>)
    requires 1 < |leaves| && GetSplitPoint(|leaves|) <= index < |leaves|
    requires RootFrom(h, index, |leaves|, leaf, aunts) == Some(Root(h, leaves))
    requires NoCollision(h, TreeInputs(h, leaves, index), ProofInputs(h, index, |leaves|, leaf, aunts))
    ensures var k, n := GetSplitPoint(|leaves|), |aunts| - 1;
            && n >= 0 && aunts[n] == Root(h, leaves[..k])
            && RootFrom(h, index - k, |leaves[k..]|, leaf, aunts[..n]) == Some(Root(h, leaves[k..]))
            && NoCollision(h, TreeInputs(h, leaves[k..], index - k),
                 ProofInputs(h, index - k, |leaves[k..]|, leaf, aunts[..n]))
  {
    hide GetSplitPoint, InnerHash, NoCollision;
    var k, n := GetSplitPoint(|leaves|), |aunts| - 1;
    assert |leaves[k..]| == |leaves| - k;
    var r := RootFrom(h, index - k, |leaves| - k, leaf, aunts[..n]);
    var tree, proof := TreeInputs(h, leaves, index), ProofInputs(h, index, |leaves|, leaf, aunts);
    RootIsDigest(h, index - k, |leaves| - k, leaf, aunts[..n]);
    TopHashesAgree(h, Root(h, leaves[..k]), Root(h, leaves[k..]), aunts[n], r.value, tree, proof);
    FewerInputs(h, tree, proof, TreeInputs(h, leaves[k..], index - k),
      ProofInputs(h, index - k, |leaves| - k, leaf, aunts[..n]));
  }

  lemma SingleLeaf(h: Hasher, leaves: seq<Digest>, index: nat, leaf: Digest, aunts: seq<Digest>)
    requires index < |leaves| == 1 && RootFrom(h, index, 1, leaf, aunts) == Some(Root(h, leaves))
    ensures leaf == leaves[index] && aunts == Path(h, leaves, index)
  {
  }

  lemma PathStep(h: Hasher, leaves: seq<Digest>, index: nat)
    requires index < |leaves| && |leaves| > 1
    ensures var k := GetSplitPoint(|leaves|);
            Path(h, leaves, index) == if index < k then Path(h, leaves[..k], index) + [Root(h, leaves[k..])]
                                      else Path(h, leaves[k..], index - k) + [Root(h, leaves[..k])]
  {
    hide GetSplitPoint;
  }

  /** Unless the hash function collides on what is hashed on the two ways up, a proof that
      reaches the root proves the leaf at its index, and consists of the audit path. */
  lemma {:induction false} ProofIsBinding(h: Hasher, leaves: seq<Digest>, index: nat, leaf: Digest, aunts: seq<Digest>)
    requires index < |leaves| && RootFrom(h, index, |leaves|, leaf, aunts) == Some(Root(h, leaves))
    requires NoCollision(h, TreeInputs(h, leaves, index), ProofInputs(h, index, |leaves|, leaf, aunts))
    ensures leaf == leaves[index] && aunts == Path(h, leaves, index)
    decreases |leaves|
  {
    hide GetSplitPoint, InnerHash, NoCollision, TreeInputs, ProofInputs, Root, RootFrom, Path;
    if |leaves| == 1 {
      SingleLeaf(h, leaves, index, leaf, aunts);
    } else {
      var k, n := GetSplitPoint(|leaves|), |aunts| - 1;
      PathStep(h, leaves, index);
      if index < k {
        LeftSubproof(h, leaves, index, leaf, aunts);
        ProofIsBinding(h, leaves[..k], index, leaf, aunts[..n]);
      } else {
        RightSubproof(h, leaves, index, leaf, aunts);
        ProofIsBinding(h, leaves[k..], index - k, leaf, aunts[..n]);
      }
      assert aunts == aunts[..n] + [aunts[n]];
    }
  }
}
