/** What a change set does to a sorted validator list (types/validator-set.go), as a map
    update: which change sets are accepted, and the list that results. */
module ChangeSets {
  import opened GoInt
  import opened Priorities
  import opened Sums
  import opened Validators

  /** The sorted entries of non-zero power, and those of power zero. */
  function Updates(changes: seq<Validator>): seq<Validator> {
    Select(SortByAddress(changes), false)
  }

  function Removals(changes: seq<Validator>): seq<Validator> {
    Select(SortByAddress(changes), true)
  }

  predicate AdmissibleEntry(v: Validator) {
    v.signer != ZERO_ADDRESS && 0 <= v.power <= MAX_TOTAL_POWER
  }

  predicate AllAdmissible(vs: seq<Validator>) {
    forall i :: 0 <= i < |vs| ==> AdmissibleEntry(vs[i])
  }

  predicate WellFormed(changes: seq<Validator>) {
    AllAdmissible(changes) && Distinct(changes)
  }

  /** The power of the entry of signer k, or 0. */
  function PowerAt(vs: seq<Validator>, k: Address): int {
    if vs == [] then 0 else if vs[0].signer == k then vs[0].power else PowerAt(vs[1..], k)
  }

  /** By how much the updates raise the total power of a list. */
  function Gain(updates: seq<Validator>, was: seq<Validator>): int {
    if updates == [] then 0
    else updates[0].power - PowerAt(was, updates[0].signer) + Gain(updates[1..], was)
  }

  lemma {:induction false} GainAppend(updates: seq<Validator>, v: Validator, was: seq<Validator>)
    ensures Gain(updates + [v], was) == Gain(updates, was) + v.power - PowerAt(was, v.signer)
  {
    if updates == [] {
      assert [v][1..] == [] && updates + [v] == [v];
    } else {
      GainAppend(updates[1..], v, was);
      assert (updates + [v])[1..] == updates[1..] + [v];
    }
  }

  /** The total after the first k updates, in address order and before any removal. */
  function RunningTotal(vs: seq<Validator>, updates: seq<Validator>, k: nat): int
    requires k <= |updates|
  {
    TotalPower(vs) + Gain(updates[..k], vs)
  }

  predicate TotalsFit(vs: seq<Validator>, updates: seq<Validator>) {
    forall k :: 0 <= k <= |updates| ==> RunningTotal(vs, updates, k) <= MAX_TOTAL_POWER
  }

  function NewTotal(vs: seq<Validator>, changes: seq<Validator>): int {
    TotalPower(vs) + Gain(Updates(changes), vs)
  }

  function NewcomerPriority(total: int): int
    requires total >= 0
  {
    -(total + total / 8)
  }

  /** An update as it enters the list: a newcomer starts behind, a member keeps its place. */
  function Entering(v: Validator, was: map<Address, Validator>, total: int): Validator
    requires total >= 0
  {
    v.(priority := if v.signer in was then was[v.signer].priority else NewcomerPriority(total))
  }

  function EnteringAll(updates: seq<Validator>, was: map<Address, Validator>, total: int): (r: seq<Validator>)
    requires total >= 0
    ensures |r| == |updates|
  {
    seq(|updates|, i requires 0 <= i < |updates| => Entering(updates[i], was, total))
  }

  function TargetMap(was: map<Address, Validator>, ch: map<Address, Validator>, total: int): map<Address, Validator>
    requires total >= 0
  {
    map k | k in was.Keys + ch.Keys && (k in ch ==> ch[k].power != 0)
      :: if k in ch then Entering(ch[k], was, total) else was[k]
  }

  /** The map the change set leads to. */
  function Target(vs: seq<Validator>, changes: seq<Validator>): map<Address, Validator>
    requires NewTotal(vs, changes) >= 0
  {
    TargetMap(Records(vs), Records(changes), NewTotal(vs, changes))
  }

  /** Overriding powers with the positive ones of `changes` and dropping the zero ones. */
  function Overridden(was: map<Address, int>, changes: map<Address, int>): map<Address, int> {
    map k | k in was.Keys + changes.Keys && (k in changes ==> changes[k] > 0)
      :: if k in changes then changes[k] else was[k]
  }

  ghost predicate Absent(vs: seq<Validator>, k: Address) {
    forall i :: 0 <= i < |vs| ==> vs[i].signer != k
  }

  /** Every removal has an entry to remove. */
  ghost predicate Within(ds: seq<Validator>, was: seq<Validator>) {
    forall j :: 0 <= j < |ds| ==> !Absent(was, ds[j].signer)
  }

  /** Distinct signers, admissible powers, and removals of members only, if at all. */
  ghost predicate AcceptsEntries(vs: seq<Validator>, changes: seq<Validator>, allowDeletes: bool) {
    && WellFormed(changes)
    && (allowDeletes || Removals(changes) == [])
    && Within(Removals(changes), vs)
  }

  /** No running total is too large, and somebody is left in the end. */
  ghost predicate AcceptsTotals(vs: seq<Validator>, changes: seq<Validator>) {
    && TotalsFit(vs, Updates(changes))
    && Overridden(PowerMap(vs), PowerMap(changes)) != map[]
  }

  /** Exactly the change sets that updateWithChangeSet accepts. */
  ghost predicate Accepts(vs: seq<Validator>, changes: seq<Validator>, allowDeletes: bool) {
    changes != [] ==> AcceptsEntries(vs, changes, allowDeletes) && AcceptsTotals(vs, changes)
  }

  /** Rescaled to a spread of at most 2P and centred. */
  function Normalised(vs: seq<Validator>): (r: seq<Validator>)
    requires vs != []
    ensures |r| == |vs|
  {
    WithPriorities(vs, Centred(Rescaled(PrioritiesOf(vs), 2 * TotalPower(vs))))
  }

  lemma NormalisedIsLevelled(vs: seq<Validator>)
    requires vs != [] && AllPositive(vs)
    ensures Levelled(PrioritiesOf(Normalised(vs)), TotalPower(vs))
    ensures PowersOf(PowersIn(Normalised(vs)), TotalPower(vs))
    ensures TotalPower(vs) > 0
  {
    var ps, d := PrioritiesOf(vs), 2 * TotalPower(vs);
    TotalIsPositive(vs);
    RescaledSpread(ps, d);
    CentredBounds(Rescaled(ps, d), d);
    PrioritiesDoNotMatter(vs, Centred(Rescaled(ps, d)));
    TotalPowerIsSum(vs);
  }

  lemma PrioritiesOfNormalised(vs: seq<Validator>)
    requires vs != []
    ensures PrioritiesOf(Normalised(vs)) == Centred(Rescaled(PrioritiesOf(vs), 2 * TotalPower(vs)))
    ensures Normalised(vs) == vs <==> PrioritiesOf(Normalised(vs)) == PrioritiesOf(vs)
  {
    hide Centred, Rescaled;
    var ps := Centred(Rescaled(PrioritiesOf(vs), 2 * TotalPower(vs)));
    PrioritiesDoNotMatter(vs, ps);
    assert forall i :: 0 <= i < |vs| ==> vs[i].(priority := vs[i].priority) == vs[i];
    assert forall i :: 0 <= i < |vs| ==> vs[i].priority == PrioritiesOf(vs)[i];
    if ps == PrioritiesOf(vs) {
      assert Normalised(vs) == vs;
    }
  }

  /** The priorities of `r` are those of `vs`, divided by the smallest ratio that brings them within
      2P of each other and shifted by a common amount so that they add up to less than one each. */
  ghost predicate LevelledFrom(vs: seq<Validator>, r: seq<Validator>, ratio: int, shift: int)
    requires vs != []
  {
    && |r| == |vs|
    && SmallestRatio(Spread(PrioritiesOf(vs)), 2 * TotalPower(vs), ratio)
    && (forall i :: 0 <= i < |vs| ==> r[i] == vs[i].(priority := r[i].priority)
                                      && QuotientTowardZero(vs[i].priority, ratio, r[i].priority + shift))
    && 0 <= Sum(PrioritiesOf(r)) < |r|
  }

  lemma ShiftedQuotient(vs: seq<Validator>, scaled: seq<int>, ratio: int, i: nat)
    requires i < |vs| && DividedBy(PrioritiesOf(vs), ratio, scaled)
    ensures var r := WithPriorities(vs, Centred(scaled));
            && r[i] == vs[i].(priority := r[i].priority)
            && QuotientTowardZero(vs[i].priority, ratio, r[i].priority + Average(scaled))
  {
    hide QuotientTowardZero;
    assert PrioritiesOf(vs)[i] == vs[i].priority;
    assert Centred(scaled)[i] + Average(scaled) == scaled[i];
  }

  lemma SumOfShifted(vs: seq<Validator>, scaled: seq<int>)
    requires vs != [] && |scaled| == |vs|
    ensures 0 <= Sum(PrioritiesOf(WithPriorities(vs, Centred(scaled)))) < |vs|
  {
    hide Centred, Sum, TotalPower, PowerMap;
    PrioritiesDoNotMatter(vs, Centred(scaled));
    SumOfCentred(scaled);
  }

  lemma LevelledByQuotients(vs: seq<Validator>, scaled: seq<int>, ratio: int)
    requires vs != [] && SmallestRatio(Spread(PrioritiesOf(vs)), 2 * TotalPower(vs), ratio)
    requires DividedBy(PrioritiesOf(vs), ratio, scaled) && |scaled| == |vs|
    ensures LevelledFrom(vs, WithPriorities(vs, Centred(scaled)), ratio, Average(scaled))
  {
    hide QuotientTowardZero, SmallestRatio, DividedBy, Spread, TotalPower, WithPriorities, Centred, Average, Sum;
    SumOfShifted(vs, scaled);
    forall i | 0 <= i < |vs|
      ensures var r := WithPriorities(vs, Centred(scaled));
              && r[i] == vs[i].(priority := r[i].priority)
              && QuotientTowardZero(vs[i].priority, ratio, r[i].priority + Average(scaled))
    {
      ShiftedQuotient(vs, scaled, ratio, i);
    }
  }

  lemma NormalisedIsLevelledFrom(vs: seq<Validator>)
    requires vs != [] && AllPositive(vs)
    ensures exists ratio, shift :: LevelledFrom(vs, Normalised(vs), ratio, shift)
  {
    hide SmallestRatio, DividedBy, LevelledFrom, Rescaled, Spread, Centred, Average;
    var ps, d := PrioritiesOf(vs), 2 * TotalPower(vs);
    TotalIsPositive(vs);
    RescaledBySmallestRatio(ps, d);
    var ratio :| SmallestRatio(Spread(ps), d, ratio) && DividedBy(ps, ratio, Rescaled(ps, d));
    LevelledByQuotients(vs, Rescaled(ps, d), ratio);
    assert LevelledFrom(vs, Normalised(vs), ratio, Average(Rescaled(ps, d)));
  }

  /** Dividing toward zero and shifting keep the order of two priorities. */
  lemma QuotientsKeepOrder(p: int, q: int, ratio: int, x: int, y: int)
    requires ratio >= 1 && QuotientTowardZero(p, ratio, x) && QuotientTowardZero(q, ratio, y) && p <= q
    ensures x <= y && (ratio == 1 ==> x == p && y == q)
  {
    Distribute(y - x, x, ratio);
    MulBound(ratio, y - x);
    ProductSign(ratio, x);
    ProductSign(ratio, y);
  }

  // ---------------------------------------------------------------- merging

  /** Merges a list with updates; of two entries with the same signer the update stays. */
  function Merge(was: seq<Validator>, updates: seq<Validator>): seq<Validator>
    decreases |was| + |updates|
  {
    if was == [] then updates
    else if updates == [] then was
    else if was[0].signer < updates[0].signer then [was[0]] + Merge(was[1..], updates)
    else [updates[0]] + Merge(if was[0].signer == updates[0].signer then was[1..] else was, updates[1..])
  }

  ghost predicate Above(vs: seq<Validator>, k: Address) {
    forall i :: 0 <= i < |vs| ==> k < vs[i].signer
  }

  lemma {:induction false} MergeMembers(was: seq<Validator>, updates: seq<Validator>, v: Validator)
    requires Sorted(was) && Sorted(updates)
    ensures v in Merge(was, updates) <==> v in updates || (v in was && Absent(updates, v.signer))
    decreases |was| + |updates|
  {
    if was == [] || updates == [] {
    } else {
      var w, u := was[0], updates[0];
      assert v in was <==> v == w || v in was[1..];
      assert v in updates <==> v == u || v in updates[1..];
      assert Absent(updates, v.signer) <==> v.signer != u.signer && Absent(updates[1..], v.signer);
      if w.signer < u.signer {
        MergeMembers(was[1..], updates, v);
      } else {
        MergeMembers(if w.signer == u.signer then was[1..] else was, updates[1..], v);
      }
    }
  }

  lemma {:induction false} MergeAbove(was: seq<Validator>, updates: seq<Validator>, k: Address)
    requires Above(was, k) && Above(updates, k)
    ensures Above(Merge(was, updates), k)
    decreases |was| + |updates|
  {
    if was == [] || updates == [] {
    } else if was[0].signer < updates[0].signer {
      MergeAbove(was[1..], updates, k);
    } else {
      MergeAbove(if was[0].signer == updates[0].signer then was[1..] else was, updates[1..], k);
    }
  }

  lemma {:induction false} MergeSorted(was: seq<Validator>, updates: seq<Validator>)
    requires Sorted(was) && Sorted(updates)
    ensures Sorted(Merge(was, updates))
    decreases |was| + |updates|
  {
    if was == [] || updates == [] {
    } else if was[0].signer < updates[0].signer {
      MergeSorted(was[1..], updates);
      MergeAbove(was[1..], updates, was[0].signer);
    } else {
      var rest := if was[0].signer == updates[0].signer then was[1..] else was;
      MergeSorted(rest, updates[1..]);
      MergeAbove(rest, updates[1..], updates[0].signer);
    }
  }

  lemma {:induction false} PowerAtAbove(vs: seq<Validator>, k: Address)
    requires Absent(vs, k)
    ensures PowerAt(vs, k) == 0
  {
    if vs != [] {
      PowerAtAbove(vs[1..], k);
    }
  }

  lemma {:induction false} GainWithoutHead(updates: seq<Validator>, was: seq<Validator>)
    requires was != [] && Absent(updates, was[0].signer)
    ensures Gain(updates, was) == Gain(updates, was[1..])
  {
    if updates != [] {
      GainWithoutHead(updates[1..], was);
    }
  }

  lemma {:induction false} GainOverNothing(updates: seq<Validator>)
    ensures Gain(updates, []) == TotalPower(updates)
  {
    if updates != [] {
      GainOverNothing(updates[1..]);
    }
  }

  lemma {:induction false} MergeTotal(was: seq<Validator>, updates: seq<Validator>)
    requires Sorted(was) && Sorted(updates)
    ensures TotalPower(Merge(was, updates)) == TotalPower(was) + Gain(updates, was)
    decreases |was| + |updates|
  {
    if was == [] {
      GainOverNothing(updates);
    } else if updates != [] {
      var w, u := was[0], updates[0];
      if w.signer < u.signer {
        MergeTotal(was[1..], updates);
        GainWithoutHead(updates, was);
      } else if w.signer == u.signer {
        MergeTotal(was[1..], updates[1..]);
        GainWithoutHead(updates[1..], was);
      } else {
        MergeTotal(was, updates[1..]);
        PowerAtAbove(was, u.signer);
      }
    }
  }

  lemma {:induction false} MergePositive(was: seq<Validator>, updates: seq<Validator>)
    requires AllPositive(was) && AllPositive(updates)
    ensures AllPositive(Merge(was, updates))
    decreases |was| + |updates|
  {
    if was == [] || updates == [] {
    } else if was[0].signer < updates[0].signer {
      MergePositive(was[1..], updates);
    } else {
      MergePositive(if was[0].signer == updates[0].signer then was[1..] else was, updates[1..]);
    }
  }

  // ---------------------------------------------------------------- removing

  /** Drops the entries whose signers are in the sorted list `ds`. */
  function Remove(was: seq<Validator>, ds: seq<Validator>): seq<Validator> {
    if ds == [] || was == [] then was
    else if was[0].signer == ds[0].signer then Remove(was[1..], ds[1..])
    else [was[0]] + Remove(was[1..], ds)
  }

  lemma WithinTail(ds: seq<Validator>, was: seq<Validator>)
    requires Sorted(ds) && Sorted(was) && Within(ds, was) && ds != [] && was != []
    ensures ds[0].signer == was[0].signer ==> Within(ds[1..], was[1..]) && Absent(was[1..], ds[0].signer)
    ensures ds[0].signer != was[0].signer ==> Within(ds, was[1..]) && Absent(ds, was[0].signer)
  {
    forall j | 0 <= j < |ds| && ds[j].signer != was[0].signer
      ensures !Absent(was[1..], ds[j].signer) && was[0].signer < ds[j].signer
    {
      var i :| 0 <= i < |was| && was[i].signer == ds[j].signer;
      assert was[1..][i - 1] == was[i];
    }
    if ds[0].signer == was[0].signer {
      forall j | 0 <= j < |ds| - 1
        ensures !Absent(was[1..], ds[1..][j].signer)
      {
        assert ds[1..][j] == ds[j + 1];
      }
    } else {
      assert forall j :: 0 <= j < |ds| ==> ds[0].signer <= ds[j].signer;
    }
  }

  lemma {:induction false} RemoveMembers(was: seq<Validator>, ds: seq<Validator>, v: Validator)
    requires Sorted(was) && Sorted(ds) && Within(ds, was)
    ensures v in Remove(was, ds) <==> v in was && Absent(ds, v.signer)
  {
    if ds == [] {
    } else if was == [] {
      assert Absent(was, ds[0].signer);
    } else {
      WithinTail(ds, was);
      assert v in was <==> v == was[0] || v in was[1..];
      assert Absent(ds, v.signer) <==> v.signer != ds[0].signer && Absent(ds[1..], v.signer);
      if was[0].signer == ds[0].signer {
        RemoveMembers(was[1..], ds[1..], v);
      } else {
        RemoveMembers(was[1..], ds, v);
      }
    }
  }

  lemma {:induction false} RemoveSorted(was: seq<Validator>, ds: seq<Validator>)
    requires Sorted(was)
    ensures Sorted(Remove(was, ds))
    ensures forall k :: Above(was, k) ==> Above(Remove(was, ds), k)
  {
    if ds == [] || was == [] {
    } else if was[0].signer == ds[0].signer {
      RemoveSorted(was[1..], ds[1..]);
    } else {
      RemoveSorted(was[1..], ds);
      assert Above(was[1..], was[0].signer);
    }
  }

  /** What the entries of the removed signers had. */
  function Loss(ds: seq<Validator>, was: seq<Validator>): int {
    if ds == [] then 0 else PowerAt(was, ds[0].signer) + Loss(ds[1..], was)
  }

  lemma {:induction false} LossWithoutHead(ds: seq<Validator>, was: seq<Validator>)
    requires was != [] && Absent(ds, was[0].signer)
    ensures Loss(ds, was) == Loss(ds, was[1..])
  {
    if ds != [] {
      LossWithoutHead(ds[1..], was);
    }
  }

  lemma {:induction false} RemoveTotal(was: seq<Validator>, ds: seq<Validator>)
    requires Sorted(was) && Sorted(ds) && Within(ds, was)
    ensures TotalPower(Remove(was, ds)) == TotalPower(was) - Loss(ds, was)
  {
    if ds == [] {
    } else if was == [] {
      assert Absent(was, ds[0].signer);
    } else {
      WithinTail(ds, was);
      if was[0].signer == ds[0].signer {
        RemoveTotal(was[1..], ds[1..]);
        LossWithoutHead(ds[1..], was);
      } else {
        RemoveTotal(was[1..], ds);
        LossWithoutHead(ds, was);
      }
    }
  }

  lemma {:induction false} RemovePositive(was: seq<Validator>, ds: seq<Validator>)
    requires AllPositive(was)
    ensures AllPositive(Remove(was, ds))
  {
    if ds == [] || was == [] {
    } else if was[0].signer == ds[0].signer {
      RemovePositive(was[1..], ds[1..]);
    } else {
      RemovePositive(was[1..], ds);
    }
  }

  lemma {:induction false} RemoveLength(was: seq<Validator>, ds: seq<Validator>)
    requires Sorted(was) && Sorted(ds) && Within(ds, was)
    ensures |Remove(was, ds)| == |was| - |ds|
  {
    if ds == [] {
    } else if was == [] {
      assert Absent(was, ds[0].signer);
    } else {
      WithinTail(ds, was);
      if was[0].signer == ds[0].signer {
        RemoveLength(was[1..], ds[1..]);
      } else {
        RemoveLength(was[1..], ds);
      }
    }
  }

  // ---------------------------------------------------------------- the resulting list

  predicate Has(vs: seq<Validator>, k: Address) {
    vs != [] && (vs[0].signer == k || Has(vs[1..], k))
  }

  /** How many updates bring a new signer. */
  function Newcomers(updates: seq<Validator>, was: seq<Validator>): nat {
    if updates == [] then 0
    else (if Has(was, updates[0].signer) then 0 else 1) + Newcomers(updates[1..], was)
  }

  lemma {:induction false} HasIsPresence(vs: seq<Validator>, k: Address)
    ensures Has(vs, k) <==> !Absent(vs, k)
  {
    if vs != [] {
      HasIsPresence(vs[1..], k);
      assert Absent(vs, k) <==> vs[0].signer != k && Absent(vs[1..], k);
    }
  }

  lemma {:induction false} PowerOfMember(vs: seq<Validator>, v: Validator)
    requires Sorted(vs) && v in vs
    ensures PowerAt(vs, v.signer) == v.power && Has(vs, v.signer)
  {
    if vs[0] != v {
      PowerOfMember(vs[1..], v);
    }
  }

  lemma InRecords(vs: seq<Validator>, k: Address)
    ensures k in Records(vs) <==> !Absent(vs, k)
  {
    if k in Records(vs) {
      var i :| 0 <= i < |vs| && vs[i] == Records(vs)[k];
    }
  }

  lemma {:induction false} NewcomersWithoutHead(updates: seq<Validator>, was: seq<Validator>)
    requires was != [] && Absent(updates, was[0].signer)
    ensures Newcomers(updates, was) == Newcomers(updates, was[1..])
  {
    if updates != [] {
      NewcomersWithoutHead(updates[1..], was);
    }
  }

  lemma {:induction false} NewcomersToNothing(updates: seq<Validator>)
    ensures Newcomers(updates, []) == |updates|
  {
    if updates != [] {
      NewcomersToNothing(updates[1..]);
    }
  }

  lemma {:induction false} MergeLength(was: seq<Validator>, updates: seq<Validator>)
    requires Sorted(was) && Sorted(updates)
    ensures |Merge(was, updates)| == |was| + Newcomers(updates, was)
    decreases |was| + |updates|
  {
    if was == [] {
      NewcomersToNothing(updates);
    } else if updates != [] {
      var w, u := was[0], updates[0];
      if w.signer < u.signer {
        MergeLength(was[1..], updates);
        NewcomersWithoutHead(updates, was);
      } else if w.signer == u.signer {
        MergeLength(was[1..], updates[1..]);
        NewcomersWithoutHead(updates[1..], was);
      } else {
        MergeLength(was, updates[1..]);
        HasIsPresence(was, u.signer);
      }
    }
  }

  lemma ByMember(vs: seq<Validator>, v: Validator)
    requires Distinct(vs) && v in vs
    ensures v.signer in Records(vs) && Records(vs)[v.signer] == v
  {
    var i :| 0 <= i < |vs| && vs[i] == v;
    RecordsAt(vs, i);
  }

  lemma UnionAt(was: seq<Validator>, updates: seq<Validator>, r: seq<Validator>, k: Address)
    requires Distinct(r)
    requires forall v :: v in r <==> v in updates || (v in was && Absent(updates, v.signer))
    ensures k in Records(updates) ==> k in Records(r) && Records(r)[k] == Records(updates)[k]
    ensures k in Records(was) && k !in Records(updates) ==> k in Records(r) && Records(r)[k] == Records(was)[k]
    ensures k in Records(r) ==> k in Records(was) || k in Records(updates)
  {
    InRecords(updates, k);
    if k in Records(updates) {
      ByMember(r, Records(updates)[k]);
    } else if k in Records(was) {
      ByMember(r, Records(was)[k]);
    }
  }

  lemma UnionByMembers(was: seq<Validator>, updates: seq<Validator>, r: seq<Validator>)
    requires Distinct(was) && Distinct(updates) && Distinct(r)
    requires forall v :: v in r <==> v in updates || (v in was && Absent(updates, v.signer))
    ensures Records(r) == Records(was) + Records(updates)
  {
    hide Records, Absent;
    forall k
      ensures k in Records(updates) ==> k in Records(r) && Records(r)[k] == Records(updates)[k]
      ensures k in Records(was) && k !in Records(updates) ==> k in Records(r) && Records(r)[k] == Records(was)[k]
      ensures k in Records(r) ==> k in Records(was) || k in Records(updates)
    {
      UnionAt(was, updates, r, k);
    }
  }

  lemma MergeRecords(was: seq<Validator>, updates: seq<Validator>)
    requires Sorted(was) && Sorted(updates)
    ensures Records(Merge(was, updates)) == Records(was) + Records(updates)
  {
    forall v {:trigger v in Merge(was, updates)}
      ensures v in Merge(was, updates) <==> v in updates || (v in was && Absent(updates, v.signer))
    {
      MergeMembers(was, updates, v);
    }
    MergeSorted(was, updates);
    UnionByMembers(was, updates, Merge(was, updates));
  }

  lemma DifferenceByMembers(was: seq<Validator>, ds: seq<Validator>, r: seq<Validator>)
    requires Distinct(was) && Distinct(r)
    requires forall v :: v in r <==> v in was && Absent(ds, v.signer)
    ensures Records(r) == Records(was) - Records(ds).Keys
  {
    hide Records;
    forall k
      ensures k in Records(was) && k !in Records(ds) ==> k in Records(r) && Records(r)[k] == Records(was)[k]
      ensures k in Records(r) ==> k in Records(was) && k !in Records(ds)
    {
      InRecords(ds, k);
      if k in Records(was) && k !in Records(ds) {
        ByMember(r, Records(was)[k]);
      }
    }
  }

  lemma RemoveRecords(was: seq<Validator>, ds: seq<Validator>)
    requires Sorted(was) && Sorted(ds) && Within(ds, was)
    ensures Records(Remove(was, ds)) == Records(was) - Records(ds).Keys
  {
    forall v {:trigger v in Remove(was, ds)}
      ensures v in Remove(was, ds) <==> v in was && Absent(ds, v.signer)
    {
      RemoveMembers(was, ds, v);
    }
    RemoveSorted(was, ds);
    DifferenceByMembers(was, ds, Remove(was, ds));
  }

  /** The list after the updates, and after the removals too. */
  function Merged(vs: seq<Validator>, changes: seq<Validator>): seq<Validator>
    requires NewTotal(vs, changes) >= 0
  {
    Merge(vs, EnteringAll(Updates(changes), Records(vs), NewTotal(vs, changes)))
  }

  function Applied(vs: seq<Validator>, changes: seq<Validator>): seq<Validator>
    requires NewTotal(vs, changes) >= 0
  {
    Remove(Merged(vs, changes), Removals(changes))
  }

  function EnteringMap(updates: map<Address, Validator>, was: map<Address, Validator>, total: int)
    : map<Address, Validator>
    requires total >= 0
  {
    map k | k in updates :: Entering(updates[k], was, total)
  }

  lemma EnteringMapStep(updates: map<Address, Validator>, v: Validator, was: map<Address, Validator>, total: int)
    requires total >= 0
    ensures Entering(v, was, total).signer == v.signer
    ensures EnteringMap(updates[v.signer := v], was, total)
         == EnteringMap(updates, was, total)[v.signer := Entering(v, was, total)]
  {
  }

  lemma {:induction false} EnteringRecords(updates: seq<Validator>, e: seq<Validator>, was: map<Address, Validator>,
      total: int)
    requires total >= 0 && |e| == |updates|
    requires forall i :: 0 <= i < |e| ==> e[i] == Entering(updates[i], was, total)
    ensures Records(e) == EnteringMap(Records(updates), was, total)
  {
    if updates != [] {
      var n := |updates| - 1;
      EnteringRecords(updates[..n], e[..n], was, total);
      EnteringMapStep(Records(updates[..n]), updates[n], was, total);
      hide Entering, EnteringMap;
    }
  }

  lemma UpdatesArePositive(changes: seq<Validator>)
    requires AllAdmissible(changes)
    ensures AllPositive(Updates(changes))
  {
    SelectMembers(SortByAddress(changes), false);
    forall i | 0 <= i < |Updates(changes)|
      ensures Updates(changes)[i].power > 0
    {
      var u := Updates(changes)[i];
      assert u in Updates(changes);
      SortMembers(changes, u);
      var j :| 0 <= j < |changes| && changes[j] == u;
      assert AdmissibleEntry(changes[j]);
    }
  }

  lemma UpdatesAreSound(changes: seq<Validator>)
    requires WellFormed(changes)
    ensures Sorted(Updates(changes)) && Sorted(Removals(changes)) && AllPositive(Updates(changes))
    ensures Records(Updates(changes)) == Kept(Records(changes), false)
    ensures Records(Removals(changes)) == Kept(Records(changes), true)
  {
    var s := SortByAddress(changes);
    SortKeepsRecords(changes);
    SelectSorted(s, false);
    SelectSorted(s, true);
    SelectRecords(s, false);
    SelectRecords(s, true);
    UpdatesArePositive(changes);
  }

  lemma TotalStaysNonNegative(vs: seq<Validator>, updates: seq<Validator>)
    requires Sorted(vs) && AllPositive(vs) && Sorted(updates) && AllPositive(updates)
    ensures TotalPower(vs) + Gain(updates, vs) >= 0
  {
    MergeTotal(vs, updates);
    MergePositive(vs, updates);
    TotalIsPositive(Merge(vs, updates));
  }

  lemma WithinMerged(ds: seq<Validator>, was: seq<Validator>, updates: seq<Validator>)
    requires Sorted(was) && Sorted(updates) && Within(ds, was)
    ensures Within(ds, Merge(was, updates))
  {
    MergeRecords(was, updates);
    forall j | 0 <= j < |ds|
      ensures !Absent(Merge(was, updates), ds[j].signer)
    {
      InRecords(was, ds[j].signer);
      InRecords(Merge(was, updates), ds[j].signer);
    }
  }

  lemma {:induction false} SameTotals(updates: seq<Validator>, entering: seq<Validator>, was: seq<Validator>)
    requires |entering| == |updates|
    requires forall i :: 0 <= i < |updates| ==>
              entering[i].signer == updates[i].signer && entering[i].power == updates[i].power
    ensures Gain(entering, was) == Gain(updates, was)
    ensures Newcomers(entering, was) == Newcomers(updates, was)
  {
    if updates != [] {
      SameTotals(updates[1..], entering[1..], was);
    }
  }

  /** What entering leaves true of the sorted updates. */
  lemma EnteringIsSound(vs: seq<Validator>, changes: seq<Validator>)
    requires Sorted(vs) && AllPositive(vs) && WellFormed(changes)
    ensures NewTotal(vs, changes) >= 0
    ensures var e := EnteringAll(Updates(changes), Records(vs), NewTotal(vs, changes));
            && Sorted(e) && AllPositive(e)
            && Gain(e, vs) == Gain(Updates(changes), vs)
            && Newcomers(e, vs) == Newcomers(Updates(changes), vs)
            && Records(e) == EnteringMap(Kept(Records(changes), false), Records(vs), NewTotal(vs, changes))
  {
    UpdatesAreSound(changes);
    TotalStaysNonNegative(vs, Updates(changes));
    var e := EnteringAll(Updates(changes), Records(vs), NewTotal(vs, changes));
    EnteringRecords(Updates(changes), e, Records(vs), NewTotal(vs, changes));
    SameTotals(Updates(changes), e, vs);
  }

  lemma MergedIsSound(vs: seq<Validator>, changes: seq<Validator>)
    requires Sorted(vs) && AllPositive(vs) && WellFormed(changes) && Within(Removals(changes), vs)
    ensures NewTotal(vs, changes) >= 0
    ensures Sorted(Merged(vs, changes)) && AllPositive(Merged(vs, changes))
    ensures TotalPower(Merged(vs, changes)) == NewTotal(vs, changes)
    ensures |Merged(vs, changes)| == |vs| + Newcomers(Updates(changes), vs)
    ensures Sorted(Removals(changes)) && Within(Removals(changes), Merged(vs, changes))
  {
    EnteringIsSound(vs, changes);
    UpdatesAreSound(changes);
    var e := EnteringAll(Updates(changes), Records(vs), NewTotal(vs, changes));
    MergeSorted(vs, e);
    MergeTotal(vs, e);
    MergePositive(vs, e);
    MergeLength(vs, e);
    WithinMerged(Removals(changes), vs, e);
  }

  lemma {:induction false} PowerIsNotNegative(was: seq<Validator>, k: Address)
    requires AllPositive(was)
    ensures PowerAt(was, k) >= 0
  {
    if was != [] {
      PowerIsNotNegative(was[1..], k);
    }
  }

  lemma {:induction false} LossIsNotNegative(ds: seq<Validator>, was: seq<Validator>)
    requires Sorted(was) && AllPositive(was)
    ensures Loss(ds, was) >= 0
  {
    if ds != [] {
      LossIsNotNegative(ds[1..], was);
      PowerIsNotNegative(was, ds[0].signer);
    }
  }

  /** Members that are not updated have their old power in the merge. */
  lemma {:induction false} LossThroughMerge(ds: seq<Validator>, was: seq<Validator>, updates: seq<Validator>)
    requires Sorted(was) && Sorted(updates) && Within(ds, was)
    requires forall j :: 0 <= j < |ds| ==> Absent(updates, ds[j].signer)
    ensures Loss(ds, Merge(was, updates)) == Loss(ds, was)
  {
    if ds != [] {
      var k := ds[0].signer;
      assert forall j :: 0 <= j < |ds| - 1 ==> ds[1..][j] == ds[j + 1];
      LossThroughMerge(ds[1..], was, updates);
      assert !Absent(was, k);
      var i :| 0 <= i < |was| && was[i].signer == k;
      MergeMembers(was, updates, was[i]);
      MergeSorted(was, updates);
      PowerOfMember(was, was[i]);
      PowerOfMember(Merge(was, updates), was[i]);
    }
  }

  lemma RemovedAreNotUpdated(vs: seq<Validator>, changes: seq<Validator>)
    requires Sorted(vs) && AllPositive(vs) && WellFormed(changes)
    ensures NewTotal(vs, changes) >= 0
    ensures var e := EnteringAll(Updates(changes), Records(vs), NewTotal(vs, changes));
            Sorted(e) && forall j :: 0 <= j < |Removals(changes)| ==> Absent(e, Removals(changes)[j].signer)
  {
    UpdatesAreSound(changes);
    EnteringIsSound(vs, changes);
    var e := EnteringAll(Updates(changes), Records(vs), NewTotal(vs, changes));
    forall j | 0 <= j < |Removals(changes)|
      ensures Absent(e, Removals(changes)[j].signer)
    {
      var k := Removals(changes)[j].signer;
      assert k in Records(Removals(changes));
      InRecords(e, k);
    }
  }

  lemma AppliedIsSound(vs: seq<Validator>, changes: seq<Validator>)
    requires Sorted(vs) && AllPositive(vs) && WellFormed(changes) && Within(Removals(changes), vs)
    ensures NewTotal(vs, changes) >= 0
    ensures Sorted(Applied(vs, changes)) && AllPositive(Applied(vs, changes))
    ensures TotalPower(Applied(vs, changes)) == NewTotal(vs, changes) - Loss(Removals(changes), vs)
    ensures Loss(Removals(changes), vs) >= 0
    ensures |Applied(vs, changes)| == |vs| + Newcomers(Updates(changes), vs) - |Removals(changes)|
    ensures |Removals(changes)| <= |vs|
  {
    MergedIsSound(vs, changes);
    RemoveSorted(Merged(vs, changes), Removals(changes));
    RemoveTotal(Merged(vs, changes), Removals(changes));
    RemovePositive(Merged(vs, changes), Removals(changes));
    RemovedAreNotUpdated(vs, changes);
    LossThroughMerge(Removals(changes), vs, EnteringAll(Updates(changes), Records(vs), NewTotal(vs, changes)));
    LossIsNotNegative(Removals(changes), vs);
    RemoveLength(Merged(vs, changes), Removals(changes));
    RemoveLength(vs, Removals(changes));
  }

  lemma TargetInSteps(was: map<Address, Validator>, ch: map<Address, Validator>, total: int)
    requires total >= 0
    ensures (was + EnteringMap(Kept(ch, false), was, total)) - Kept(ch, true).Keys == TargetMap(was, ch, total)
  {
  }

  /** The loops of applyUpdates and applyRemovals lead to the list of the target map. */
  lemma AppliedIsTarget(vs: seq<Validator>, changes: seq<Validator>)
    requires Sorted(vs) && AllPositive(vs) && WellFormed(changes) && Within(Removals(changes), vs)
    ensures NewTotal(vs, changes) >= 0
    ensures Records(Applied(vs, changes)) == Target(vs, changes)
    ensures Applied(vs, changes) == ListOf(Target(vs, changes))
  {
    AppliedIsSound(vs, changes);
    MergedIsSound(vs, changes);
    EnteringIsSound(vs, changes);
    UpdatesAreSound(changes);
    var e := EnteringAll(Updates(changes), Records(vs), NewTotal(vs, changes));
    MergeRecords(vs, e);
    RemoveRecords(Merged(vs, changes), Removals(changes));
    TargetInSteps(Records(vs), Records(changes), NewTotal(vs, changes));
    SortedIsListOf(Applied(vs, changes));
  }

  lemma PowersOfTarget(was: map<Address, Validator>, ch: map<Address, Validator>, total: int)
    requires total >= 0 && forall k :: k in ch ==> ch[k].power >= 0
    ensures Powers(TargetMap(was, ch, total)) == Overridden(Powers(was), Powers(ch))
  {
  }

  lemma TargetPowers(vs: seq<Validator>, changes: seq<Validator>)
    requires WellFormed(changes) && NewTotal(vs, changes) >= 0
    ensures Powers(Target(vs, changes)) == Overridden(PowerMap(vs), PowerMap(changes))
  {
    PowerMapIsPowers(vs);
    PowerMapIsPowers(changes);
    forall k | k in Records(changes)
      ensures Records(changes)[k].power >= 0
    {
      var i :| 0 <= i < |changes| && changes[i] == Records(changes)[k];
      assert AdmissibleEntry(changes[i]);
    }
    PowersOfTarget(Records(vs), Records(changes), NewTotal(vs, changes));
  }

  // ---------------------------------------------------------------- what becomes of each entry

  /** A validator but for its priority. */
  function Identity(v: Validator): Validator {
    v.(priority := 0)
  }

  /** A member that stays keeps its priority, with a new power or without. */
  lemma MembersKeepPriority(vs: seq<Validator>, changes: seq<Validator>, k: Address)
    requires NewTotal(vs, changes) >= 0 && k in Target(vs, changes) && k in Records(vs)
    ensures Target(vs, changes)[k].priority == Records(vs)[k].priority
  {
  }

  /** A newcomer starts 1.125 times the new total behind, up to rounding. */
  lemma NewcomersStartBehind(vs: seq<Validator>, changes: seq<Validator>, k: Address)
    requires NewTotal(vs, changes) >= 0 && k in Target(vs, changes) && k !in Records(vs)
    ensures 9 * NewTotal(vs, changes) - 7 <= -8 * Target(vs, changes)[k].priority <= 9 * NewTotal(vs, changes)
  {
  }

  /** All the rest of an entry is as in the change set, or as it was. */
  lemma ChangesReplaceEntries(vs: seq<Validator>, changes: seq<Validator>, k: Address)
    requires NewTotal(vs, changes) >= 0 && k in Target(vs, changes)
    ensures k in Records(vs) || k in Records(changes)
    ensures k in Records(changes) ==> Identity(Target(vs, changes)[k]) == Identity(Records(changes)[k])
    ensures k !in Records(changes) ==> Target(vs, changes)[k] == Records(vs)[k]
  {
  }

  /** An accepted change set acts on the list as the map update it spells. */
  lemma UpdateRefinesMapUpdate(vs: seq<Validator>, changes: seq<Validator>)
    requires Sorted(vs) && AllPositive(vs) && changes != [] && Accepts(vs, changes, true)
    ensures NewTotal(vs, changes) >= 0 && Applied(vs, changes) != []
    ensures var r := Normalised(Applied(vs, changes));
            Sorted(r) && PowerMap(r) == Overridden(PowerMap(vs), PowerMap(changes))
  {
    AppliedIsTarget(vs, changes);
    AppliedIsSound(vs, changes);
    TargetPowers(vs, changes);
    var a := Applied(vs, changes);
    PowerMapIsPowers(a);
    PrioritiesDoNotMatter(a, Centred(Rescaled(PrioritiesOf(a), 2 * TotalPower(a))));
  }

  /** The emptiness test of the code compares counts; it fires exactly when nothing is left. */
  lemma NothingIsLeft(vs: seq<Validator>, changes: seq<Validator>)
    requires Sorted(vs) && AllPositive(vs) && WellFormed(changes) && Within(Removals(changes), vs)
    ensures Newcomers(Updates(changes), vs) == 0 && |vs| == |Removals(changes)|
       <==> Overridden(PowerMap(vs), PowerMap(changes)) == map[]
  {
    AppliedIsTarget(vs, changes);
    AppliedIsSound(vs, changes);
    TargetPowers(vs, changes);
    var a := Applied(vs, changes);
    if a == [] {
      assert Target(vs, changes) == map[];
    } else {
      assert a[0].signer in Target(vs, changes);
      assert a[0].signer in Powers(Target(vs, changes));
    }
  }

  // ---------------------------------------------------------------- acceptance, written out

  lemma WellFormedMeans(changes: seq<Validator>)
    ensures WellFormed(changes) <==>
            && (forall i, j :: 0 <= i < j < |changes| ==> changes[i].signer != changes[j].signer)
            && (forall i :: 0 <= i < |changes| ==>
                 changes[i].signer != ZERO_ADDRESS && 0 <= changes[i].power <= MAX_TOTAL_POWER)
  {
    assert forall i :: 0 <= i < |changes| ==>
             (AdmissibleEntry(changes[i]) <==>
               changes[i].signer != ZERO_ADDRESS && 0 <= changes[i].power <= MAX_TOTAL_POWER);
  }

  lemma RemovalsAre(changes: seq<Validator>)
    ensures forall v :: v in Removals(changes) <==> v in changes && v.power == 0
    ensures forall v :: v in Updates(changes) <==> v in changes && v.power != 0
  {
    SelectMembers(SortByAddress(changes), true);
    SelectMembers(SortByAddress(changes), false);
    forall v
      ensures v in SortByAddress(changes) <==> v in changes
    {
      SortMembers(changes, v);
    }
  }

  /** Entries of power zero are admitted when removals are, and for members only. */
  ghost predicate RemovalsFit(vs: seq<Validator>, changes: seq<Validator>, allowDeletes: bool) {
    forall v :: v in changes && v.power == 0 ==> allowDeletes && exists j :: 0 <= j < |vs| && vs[j].signer == v.signer
  }

  lemma RemovalsFitIff(vs: seq<Validator>, changes: seq<Validator>, allowDeletes: bool)
    ensures (allowDeletes || Removals(changes) == []) && Within(Removals(changes), vs)
       <==> RemovalsFit(vs, changes, allowDeletes)
  {
    RemovalsAre(changes);
    var ds := Removals(changes);
    hide Removals;
    if RemovalsFit(vs, changes, allowDeletes) {
      assert ds != [] ==> ds[0] in ds;
      forall j | 0 <= j < |ds|
        ensures !Absent(vs, ds[j].signer)
      {
        assert ds[j] in ds;
      }
    }
    if Within(ds, vs) {
      forall v | v in ds
        ensures exists j :: 0 <= j < |vs| && vs[j].signer == v.signer
      {
        var i :| 0 <= i < |ds| && ds[i] == v;
        assert !Absent(vs, ds[i].signer);
      }
    }
  }

  /** After any number of the updates, in address order and before any removal, the total is at most the maximum. */
  predicate PartialTotalsFit(vs: seq<Validator>, updates: seq<Validator>) {
    forall k :: 0 <= k <= |updates| ==> TotalPower(Merge(vs, updates[..k])) <= MAX_TOTAL_POWER
  }

  lemma TotalsFitIff(vs: seq<Validator>, updates: seq<Validator>)
    requires Sorted(vs) && Sorted(updates)
    ensures TotalsFit(vs, updates) <==> PartialTotalsFit(vs, updates)
  {
    forall k | 0 <= k <= |updates|
      ensures TotalPower(Merge(vs, updates[..k])) == RunningTotal(vs, updates, k)
    {
      MergeTotal(vs, updates[..k]);
    }
  }

  /** An entry of positive power, or a member that no entry names. */
  ghost predicate SomebodyStays(vs: seq<Validator>, changes: seq<Validator>) {
    || (exists v :: v in changes && v.power > 0)
    || (exists w :: w in vs && Absent(changes, w.signer))
  }

  lemma StaysWith(was: map<Address, Validator>, changes: map<Address, Validator>, k: Address)
    ensures k in Overridden(Powers(was), Powers(changes))
       <==> if k in changes then changes[k].power > 0 else k in was
  {
  }

  lemma SomebodyStaysIff(vs: seq<Validator>, changes: seq<Validator>)
    requires WellFormed(changes)
    ensures Overridden(PowerMap(vs), PowerMap(changes)) != map[] <==> SomebodyStays(vs, changes)
  {
    hide Records, PowerMap, Powers, Overridden, Absent;
    PowerMapIsPowers(vs);
    PowerMapIsPowers(changes);
    var m := Overridden(PowerMap(vs), PowerMap(changes));
    if v :| v in changes && v.power > 0 {
      ByMember(changes, v);
      StaysWith(Records(vs), Records(changes), v.signer);
    }
    if w :| w in vs && Absent(changes, w.signer) {
      InRecords(changes, w.signer);
      StaysWith(Records(vs), Records(changes), w.signer);
    }
    if k :| k in m {
      InRecords(changes, k);
      StaysWith(Records(vs), Records(changes), k);
      if k !in Records(changes) {
        assert Records(vs)[k] in vs;
      }
    }
  }

  /** No address occurs twice or is zero, all powers are in range, removals are allowed and of members, no partial
      total is too large, and somebody is left. */
  ghost predicate Acceptable(vs: seq<Validator>, changes: seq<Validator>, allowDeletes: bool) {
    && (forall i, j :: 0 <= i < j < |changes| ==> changes[i].signer != changes[j].signer)
    && (forall i :: 0 <= i < |changes| ==>
         changes[i].signer != ZERO_ADDRESS && 0 <= changes[i].power <= MAX_TOTAL_POWER)
    && RemovalsFit(vs, changes, allowDeletes)
    && PartialTotalsFit(vs, Updates(changes))
    && SomebodyStays(vs, changes)
  }

  /** These are the change sets that are accepted, with the empty one. */
  lemma AcceptsIff(vs: seq<Validator>, changes: seq<Validator>, allowDeletes: bool)
    requires Sorted(vs)
    ensures Accepts(vs, changes, allowDeletes) <==> changes == [] || Acceptable(vs, changes, allowDeletes)
  {
    WellFormedMeans(changes);
    hide WellFormed, RemovalsFit, PartialTotalsFit, SomebodyStays, Removals, Updates, Within, TotalsFit, Overridden;
    if WellFormed(changes) {
      UpdatesAreSound(changes);
      RemovalsFitIff(vs, changes, allowDeletes);
      TotalsFitIff(vs, Updates(changes));
      SomebodyStaysIff(vs, changes);
    }
  }

  // ---------------------------------------------------------------- refused although it would fit

  function Plain(signer: Address, power: int): Validator {
    Validator(signer, 0, 0, power, 0, signer, false, 0)
  }

  lemma SortTwo(a: Validator, b: Validator)
    requires a.signer < b.signer
    ensures SortByAddress([a, b]) == [a, b]
  {
    assert [a, b][..1] == [a];
    assert SortByAddress([a]) == [a] by {
      assert [a][..0] == [];
    }
    assert Insert(b, [a]) == [a] + Insert(b, []);
  }

  lemma SelectTwo(a: Validator, b: Validator, zero: bool)
    ensures Select([a, b], zero)
         == (if (a.power == 0) == zero then [a] else []) + (if (b.power == 0) == zero then [b] else [])
  {
    assert Select([], zero) == [];
    assert Select([a], zero) == if (a.power == 0) == zero then [a] else [] by {
      assert [a][..0] == [];
    }
    assert [a, b][..1] == [a];
  }

  lemma TwoAccepted(vs: seq<Validator>, a: Validator, b: Validator)
    requires a.signer < b.signer && AdmissibleEntry(a) && AdmissibleEntry(b)
    requires b.power == 0 ==> !Absent(vs, b.signer)
    requires a.power != 0
    ensures AcceptsEntries(vs, [a, b], true)
    ensures Updates([a, b]) == [a] + (if b.power == 0 then [] else [b])
    ensures Removals([a, b]) == if b.power == 0 then [b] else []
  {
    SortTwo(a, b);
    SelectTwo(a, b, false);
    SelectTwo(a, b, true);
  }

  lemma GainOfOne(v: Validator, was: seq<Validator>)
    ensures Gain([v], was) == v.power - PowerAt(was, v.signer)
    ensures Loss([v], was) == PowerAt(was, v.signer)
  {
    assert [v][1..] == [];
  }

  /** The first of two updates alone is already too much. */
  lemma FirstDecides(vs: seq<Validator>, changes: seq<Validator>)
    requires |Updates(changes)| > 0
    requires TotalPower(vs) + Updates(changes)[0].power - PowerAt(vs, Updates(changes)[0].signer) > MAX_TOTAL_POWER
    ensures !TotalsFit(vs, Updates(changes))
  {
    var updates := Updates(changes);
    assert updates[..1] == [updates[0]];
    GainOfOne(updates[0], vs);
    assert RunningTotal(vs, updates, 1) > MAX_TOTAL_POWER;
  }

  lemma OneMember(v: Validator, k: Address)
    ensures TotalPower([v]) == v.power
    ensures PowerAt([v], k) == if v.signer == k then v.power else 0
  {
    assert [v][1..] == [];
  }

  lemma OneLeavesOneEnters(vs: seq<Validator>, changes: seq<Validator>, update: Validator, removal: Validator)
    requires Sorted(vs) && AllPositive(vs) && WellFormed(changes) && Within(Removals(changes), vs)
    requires Updates(changes) == [update] && Removals(changes) == [removal]
    ensures NewTotal(vs, changes) == TotalPower(vs) + update.power - PowerAt(vs, update.signer) >= 0
    ensures TotalPower(Applied(vs, changes)) == NewTotal(vs, changes) - PowerAt(vs, removal.signer)
  {
    GainOfOne(update, vs);
    GainOfOne(removal, vs);
    AppliedIsSound(vs, changes);
  }

  /** A member of the largest power leaves and one of power 1 enters: refused, although the result
      would be one validator of power 1. */
  lemma LeavingMakesNoRoom()
    ensures var vs, changes := [Plain(2, MAX_TOTAL_POWER)], [Plain(1, 1), Plain(2, 0)];
            && AcceptsEntries(vs, changes, true) && !Accepts(vs, changes, true)
            && NewTotal(vs, changes) >= 0 && TotalPower(Applied(vs, changes)) == 1
  {
    hide Updates, Removals, NewTotal, Applied, TotalPower, PowerAt, TotalsFit, Within;
    var member, update, removal := Plain(2, MAX_TOTAL_POWER), Plain(1, 1), Plain(2, 0);
    assert [member][0].signer == 2;
    TwoAccepted([member], update, removal);
    OneMember(member, 1);
    OneMember(member, 2);
    FirstDecides([member], [update, removal]);
    OneLeavesOneEnters([member], [update, removal], update, removal);
  }

  lemma TotalOfTwo(a: Validator, b: Validator)
    ensures TotalPower([a, b]) == a.power + b.power
  {
    assert TotalPower([b]) == b.power by {
      assert [b][1..] == [];
    }
    assert [a, b][1..] == [b];
  }

  /** Power moves from one member to another of lower address: refused, although the total would
      stay what it is. */
  lemma OrderDecides()
    ensures var vs := [Plain(1, 1), Plain(2, MAX_TOTAL_POWER - 1)];
            && AcceptsEntries(vs, [Plain(1, 2), Plain(2, MAX_TOTAL_POWER - 2)], true)
            && !Accepts(vs, [Plain(1, 2), Plain(2, MAX_TOTAL_POWER - 2)], true)
            && NewTotal(vs, [Plain(1, 2), Plain(2, MAX_TOTAL_POWER - 2)]) == TotalPower(vs) == MAX_TOTAL_POWER
  {
    var vs, changes := [Plain(1, 1), Plain(2, MAX_TOTAL_POWER - 1)], [Plain(1, 2), Plain(2, MAX_TOTAL_POWER - 2)];
    TwoAccepted(vs, changes[0], changes[1]);
    assert Updates(changes) == changes;
    TotalOfTwo(vs[0], vs[1]);
    assert PowerAt(vs, 1) == 1 && PowerAt(vs, 2) == PowerAt(vs[1..], 2) == MAX_TOTAL_POWER - 1;
    FirstDecides(vs, changes);
    assert changes[1..] == [changes[1]];
    assert Gain([changes[1]], vs) == -1 by {
      assert [changes[1]][1..] == [];
    }
  }
}
