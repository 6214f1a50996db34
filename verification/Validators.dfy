/** Validators and sorted validator lists (types/validator.go, types/validator-set.go),
    read as maps from signer address to validator. */
module Validators {
  import opened GoInt
  import opened Sums

  /** A 20-byte address as the number it spells in big-endian order; bytes.Compare on
      addresses is the order of these numbers. */
  type Address = nat

  const ZERO_ADDRESS: Address := 0

  /** MaxInt64 / 8. */
  const MAX_TOTAL_POWER: int := 0xfff_ffff_ffff_ffff

  datatype Validator = Validator(
    id: nat, startEpoch: nat, endEpoch: nat, power: int, pubKey: nat,
    signer: Address, jailed: bool, priority: int)
  {
    predicate IsCurrentValidator(ackCount: nat) {
      var currentEpoch := WrapU64(ackCount + 1);
      !jailed && startEpoch <= currentEpoch && (endEpoch == 0 || endEpoch > currentEpoch) && power > 0
    }
  }

  function PrioritiesOf(vs: seq<Validator>): (r: seq<int>)
    ensures |r| == |vs|
  {
    seq(|vs|, i requires 0 <= i < |vs| => vs[i].priority)
  }

  function PowersIn(vs: seq<Validator>): (r: seq<int>)
    ensures |r| == |vs|
  {
    seq(|vs|, i requires 0 <= i < |vs| => vs[i].power)
  }

  function WithPriorities(vs: seq<Validator>, ps: seq<int>): (r: seq<Validator>)
    requires |ps| == |vs|
    ensures |r| == |vs|
  {
    seq(|vs|, i requires 0 <= i < |vs| => vs[i].(priority := ps[i]))
  }

  /** The sum of the voting powers. */
  function TotalPower(vs: seq<Validator>): int {
    if vs == [] then 0 else vs[0].power + TotalPower(vs[1..])
  }

  lemma {:induction false} TotalPowerIsSum(vs: seq<Validator>)
    ensures TotalPower(vs) == Sum(PowersIn(vs))
  {
    if vs != [] {
      TotalPowerIsSum(vs[1..]);
      SumFront(PowersIn(vs));
      assert PowersIn(vs)[1..] == PowersIn(vs[1..]);
    }
  }

  predicate AllPositive(vs: seq<Validator>) {
    forall i :: 0 <= i < |vs| ==> vs[i].power > 0
  }

  lemma {:induction false} TotalIsPositive(vs: seq<Validator>)
    requires AllPositive(vs)
    ensures TotalPower(vs) >= |vs|
  {
    if vs != [] {
      TotalIsPositive(vs[1..]);
    }
  }

  // ---------------------------------------------------------------- lists as maps

  predicate Sorted(vs: seq<Validator>) {
    forall i, j :: 0 <= i < j < |vs| ==> vs[i].signer < vs[j].signer
  }

  predicate Distinct(vs: seq<Validator>) {
    forall i, j :: 0 <= i < j < |vs| ==> vs[i].signer != vs[j].signer
  }

  function Records(vs: seq<Validator>): (m: map<Address, Validator>)
    ensures forall i :: 0 <= i < |vs| ==> vs[i].signer in m
    ensures forall k :: k in m ==> m[k].signer == k && m[k] in vs
  {
    if vs == [] then map[]
    else
      var last := vs[|vs| - 1];
      Records(vs[..|vs| - 1])[last.signer := last]
  }

  lemma RecordsAt(vs: seq<Validator>, i: nat)
    requires Distinct(vs) && i < |vs|
    ensures Records(vs)[vs[i].signer] == vs[i]
  {
    var j :| 0 <= j < |vs| && vs[j] == Records(vs)[vs[i].signer];
  }

  lemma {:induction false} RecordsCount(vs: seq<Validator>)
    requires Distinct(vs)
    ensures |Records(vs)| == |vs|
  {
    if vs != [] {
      var last := vs[|vs| - 1];
      RecordsCount(vs[..|vs| - 1]);
      assert last.signer !in Records(vs[..|vs| - 1]);
    }
  }

  function Powers(m: map<Address, Validator>): map<Address, int> {
    map k | k in m :: m[k].power
  }

  function PowerMap(vs: seq<Validator>): map<Address, int> {
    if vs == [] then map[]
    else PowerMap(vs[..|vs| - 1])[vs[|vs| - 1].signer := vs[|vs| - 1].power]
  }

  lemma {:induction false} PowerMapIsPowers(vs: seq<Validator>)
    ensures PowerMap(vs) == Powers(Records(vs))
  {
    if vs != [] {
      PowerMapIsPowers(vs[..|vs| - 1]);
    }
  }

  lemma {:induction false} LargestExists(keys: set<Address>)
    requires keys != {}
    ensures exists k :: k in keys && forall j :: j in keys ==> j <= k
  {
    var k :| k in keys;
    var rest := keys - {k};
    if rest == {} {
      assert keys == {k};
    } else {
      LargestExists(rest);
      var l :| l in rest && forall j :: j in rest ==> j <= l;
      assert forall j :: j in keys ==> j == k || j in rest;
      assert (if k < l then l else k) in keys;
    }
  }

  /** The list of a map, in key order. */
  ghost function ListOf(m: map<Address, Validator>): seq<Validator>
    decreases |m|
  {
    if m == map[] then []
    else
      LargestExists(m.Keys);
      var k :| k in m.Keys && forall j :: j in m.Keys ==> j <= k;
      assert (m - {k}).Keys == m.Keys - {k};
      ListOf(m - {k}) + [m[k]]
  }

  lemma ListOfStep(m: map<Address, Validator>, k: Address)
    requires k in m && forall j :: j in m ==> j <= k
    ensures ListOf(m) == ListOf(m - {k}) + [m[k]]
  {
    assert forall l :: l in m.Keys && (forall j :: j in m.Keys ==> j <= l) ==> l == k;
  }

  lemma RecordsStep(vs: seq<Validator>)
    requires vs != []
    ensures Records(vs) == Records(vs[..|vs| - 1])[vs[|vs| - 1].signer := vs[|vs| - 1]]
  {
  }

  lemma WithoutLast(vs: seq<Validator>)
    requires Sorted(vs) && vs != []
    ensures var k := vs[|vs| - 1].signer;
            && Records(vs) - {k} == Records(vs[..|vs| - 1])
            && k in Records(vs) && Records(vs)[k] == vs[|vs| - 1]
            && forall j :: j in Records(vs) ==> j <= k
  {
    hide Records;
    var n := |vs| - 1;
    RecordsStep(vs);
    assert vs[n].signer !in Records(vs[..n]);
  }

  lemma NothingListed()
    ensures ListOf(Records([])) == []
  {
  }

  /** A sorted list is determined by the map it spells. */
  lemma {:induction false} SortedIsListOf(vs: seq<Validator>)
    requires Sorted(vs)
    ensures ListOf(Records(vs)) == vs
  {
    hide ListOf, Records;
    if vs == [] {
      NothingListed();
    } else {
      var m, k := Records(vs), vs[|vs| - 1].signer;
      WithoutLast(vs);
      SortedIsListOf(vs[..|vs| - 1]);
      ListOfStep(m, k);
      assert vs == vs[..|vs| - 1] + [vs[|vs| - 1]];
    }
  }

  lemma {:induction false} SamePowers(vs: seq<Validator>, us: seq<Validator>)
    requires |us| == |vs| && forall i :: 0 <= i < |vs| ==> us[i].signer == vs[i].signer && us[i].power == vs[i].power
    ensures PowerMap(us) == PowerMap(vs)
  {
    if vs != [] {
      SamePowers(vs[..|vs| - 1], us[..|us| - 1]);
    }
  }

  /** Changing priorities changes no address and no power. */
  lemma PrioritiesDoNotMatter(vs: seq<Validator>, ps: seq<int>)
    requires |ps| == |vs|
    ensures Sorted(vs) ==> Sorted(WithPriorities(vs, ps))
    ensures AllPositive(vs) ==> AllPositive(WithPriorities(vs, ps))
    ensures PowersIn(WithPriorities(vs, ps)) == PowersIn(vs)
    ensures PrioritiesOf(WithPriorities(vs, ps)) == ps
    ensures TotalPower(WithPriorities(vs, ps)) == TotalPower(vs)
    ensures PowerMap(WithPriorities(vs, ps)) == PowerMap(vs)
  {
    SamePowers(vs, WithPriorities(vs, ps));
    TotalPowerIsSum(vs);
    TotalPowerIsSum(WithPriorities(vs, ps));
  }

  // ---------------------------------------------------------------- sorting and splitting

  function Insert(v: Validator, vs: seq<Validator>): seq<Validator> {
    if vs == [] || v.signer < vs[0].signer then [v] + vs
    else [vs[0]] + Insert(v, vs[1..])
  }

  /** Stands for sort.Sort(ValidatorsByAddress(changes)). */
  function SortByAddress(vs: seq<Validator>): seq<Validator> {
    if vs == [] then [] else Insert(vs[|vs| - 1], SortByAddress(vs[..|vs| - 1]))
  }

  predicate Ascending(vs: seq<Validator>) {
    forall i, j :: 0 <= i < j < |vs| ==> vs[i].signer <= vs[j].signer
  }

  lemma {:induction false} InsertMembers(v: Validator, vs: seq<Validator>, w: Validator)
    ensures w in Insert(v, vs) <==> w == v || w in vs
  {
    if vs == [] || v.signer < vs[0].signer {
    } else {
      InsertMembers(v, vs[1..], w);
      assert w in vs <==> w == vs[0] || w in vs[1..];
    }
  }

  lemma {:induction false} InsertAscends(v: Validator, vs: seq<Validator>)
    requires Ascending(vs)
    ensures Ascending(Insert(v, vs))
  {
    if vs == [] || v.signer < vs[0].signer {
    } else {
      InsertAscends(v, vs[1..]);
      var r := Insert(v, vs[1..]);
      forall j | 0 <= j < |r|
        ensures vs[0].signer <= r[j].signer
      {
        InsertMembers(v, vs[1..], r[j]);
      }
    }
  }

  lemma {:induction false} SortAscends(vs: seq<Validator>)
    ensures Ascending(SortByAddress(vs))
  {
    if vs != [] {
      SortAscends(vs[..|vs| - 1]);
      InsertAscends(vs[|vs| - 1], SortByAddress(vs[..|vs| - 1]));
    }
  }

  lemma {:induction false} SortMembers(vs: seq<Validator>, w: Validator)
    ensures w in SortByAddress(vs) <==> w in vs
  {
    if vs != [] {
      SortMembers(vs[..|vs| - 1], w);
      InsertMembers(vs[|vs| - 1], SortByAddress(vs[..|vs| - 1]), w);
    }
  }

  /** How many entries have signer k. */
  function Count(vs: seq<Validator>, k: Address): nat {
    if vs == [] then 0 else Count(vs[..|vs| - 1], k) + if vs[|vs| - 1].signer == k then 1 else 0
  }

  lemma {:induction false} MembersSplit(vs: seq<Validator>, k: Address)
    ensures Count(vs, k) == 0 <==> forall i :: 0 <= i < |vs| ==> vs[i].signer != k
  {
    if vs != [] {
      MembersSplit(vs[..|vs| - 1], k);
    }
  }

  lemma {:induction false} CountConcat(vs: seq<Validator>, ws: seq<Validator>, k: Address)
    ensures Count(vs + ws, k) == Count(vs, k) + Count(ws, k)
  {
    if ws == [] {
      assert vs + ws == vs;
    } else {
      CountConcat(vs, ws[..|ws| - 1], k);
      assert (vs + ws)[..|vs + ws| - 1] == vs + ws[..|ws| - 1];
    }
  }

  lemma {:induction false} CountInsert(v: Validator, vs: seq<Validator>, k: Address)
    ensures Count(Insert(v, vs), k) == Count(vs, k) + Count([v], k)
  {
    if vs == [] || v.signer < vs[0].signer {
      CountConcat([v], vs, k);
    } else {
      CountInsert(v, vs[1..], k);
      CountConcat([vs[0]], Insert(v, vs[1..]), k);
      CountConcat([vs[0]], vs[1..], k);
      assert vs == [vs[0]] + vs[1..];
    }
  }

  lemma {:induction false} CountSort(vs: seq<Validator>, k: Address)
    ensures Count(SortByAddress(vs), k) == Count(vs, k)
  {
    if vs != [] {
      var n := |vs| - 1;
      CountSort(vs[..n], k);
      CountInsert(vs[n], SortByAddress(vs[..n]), k);
      assert Count([vs[n]], k) == if vs[n].signer == k then 1 else 0;
    }
  }

  lemma {:induction false} DistinctCount(vs: seq<Validator>, k: Address)
    requires Distinct(vs)
    ensures Count(vs, k) <= 1
  {
    if vs != [] {
      DistinctCount(vs[..|vs| - 1], k);
      MembersSplit(vs[..|vs| - 1], k);
    }
  }

  lemma DistinctByCount(vs: seq<Validator>)
    ensures Distinct(vs) <==> forall k :: Count(vs, k) <= 1
  {
    if Distinct(vs) {
      forall k
        ensures Count(vs, k) <= 1
      {
        DistinctCount(vs, k);
      }
    } else {
      var i, j :| 0 <= i < j < |vs| && vs[i].signer == vs[j].signer;
      var k := vs[i].signer;
      CountConcat(vs[..j], vs[j..], k);
      assert vs == vs[..j] + vs[j..];
      MembersSplit(vs[..j], k);
      MembersSplit(vs[j..], k);
      assert vs[..j][i].signer == k && vs[j..][0].signer == k;
      assert Count(vs, k) >= 2;
    }
  }

  lemma SortKeepsDistinct(vs: seq<Validator>)
    ensures Distinct(SortByAddress(vs)) <==> Distinct(vs)
  {
    var s := SortByAddress(vs);
    DistinctByCount(vs);
    DistinctByCount(s);
    if Distinct(vs) {
      forall k
        ensures Count(s, k) <= 1
      {
        CountSort(vs, k);
      }
    }
    if Distinct(s) {
      forall k
        ensures Count(vs, k) <= 1
      {
        CountSort(vs, k);
      }
    }
  }

  lemma SameMembers(vs: seq<Validator>, ws: seq<Validator>)
    requires Distinct(ws) && forall w :: w in vs ==> w in ws
    ensures forall k :: k in Records(vs) ==> k in Records(ws) && Records(ws)[k] == Records(vs)[k]
  {
    forall k | k in Records(vs)
      ensures k in Records(ws) && Records(ws)[k] == Records(vs)[k]
    {
      var i :| 0 <= i < |ws| && ws[i] == Records(vs)[k];
      RecordsAt(ws, i);
    }
  }

  /** Sorting a list without duplicates gives the sorted list of the same map. */
  lemma SortKeepsRecords(vs: seq<Validator>)
    ensures Distinct(vs) <==> Sorted(SortByAddress(vs))
    ensures Distinct(vs) ==> Records(SortByAddress(vs)) == Records(vs)
  {
    var s := SortByAddress(vs);
    SortAscends(vs);
    SortKeepsDistinct(vs);
    if Distinct(vs) {
      forall w
        ensures w in s <==> w in vs
      {
        SortMembers(vs, w);
      }
      SameMembers(s, vs);
      SameMembers(vs, s);
    }
  }

  /** The entries of power zero, or the others. */
  function Select(vs: seq<Validator>, zero: bool): seq<Validator> {
    if vs == [] then []
    else Select(vs[..|vs| - 1], zero) + if (vs[|vs| - 1].power == 0) == zero then [vs[|vs| - 1]] else []
  }

  function Kept(m: map<Address, Validator>, zero: bool): map<Address, Validator> {
    map k | k in m && (m[k].power == 0) == zero :: m[k]
  }

  lemma {:induction false} SelectMembers(vs: seq<Validator>, zero: bool)
    ensures forall v :: v in Select(vs, zero) <==> v in vs && (v.power == 0) == zero
  {
    if vs != [] {
      SelectMembers(vs[..|vs| - 1], zero);
    }
  }

  lemma {:induction false} SelectSorted(vs: seq<Validator>, zero: bool)
    requires Sorted(vs)
    ensures Sorted(Select(vs, zero))
  {
    if vs != [] {
      var n := |vs| - 1;
      SelectSorted(vs[..n], zero);
      SelectMembers(vs[..n], zero);
    }
  }

  lemma KeptByMembers(vs: seq<Validator>, s: seq<Validator>, zero: bool)
    requires Distinct(vs) && Distinct(s)
    requires forall v :: v in s <==> v in vs && (v.power == 0) == zero
    ensures Records(s) == Kept(Records(vs), zero)
  {
    SameMembers(s, vs);
    forall k | k in Kept(Records(vs), zero)
      ensures k in Records(s) && Records(s)[k] == Records(vs)[k]
    {
      var v := Records(vs)[k];
      assert v in s;
      var i :| 0 <= i < |s| && s[i] == v;
      RecordsAt(s, i);
    }
  }

  lemma SelectRecords(vs: seq<Validator>, zero: bool)
    requires Sorted(vs)
    ensures Records(Select(vs, zero)) == Kept(Records(vs), zero)
  {
    SelectSorted(vs, zero);
    SelectMembers(vs, zero);
    KeptByMembers(vs, Select(vs, zero), zero);
  }
}
