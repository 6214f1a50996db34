/** The validator set of types/validator-set.go: cached total, in-place priorities, and
    updates by change set. */
module ValidatorSets {
  import opened GoInt
  import opened Options
  import opened Priorities
  import opened Sums
  import opened Validators
  import opened ChangeSets

  /** The one with the higher priority; of equals the one with the lower address. */
  function CompareProposerPriority(v: Validator, other: Validator): Validator
    requires v.priority == other.priority ==> v.signer != other.signer
  {
    if v.priority > other.priority then v
    else if v.priority < other.priority then other
    else if v.signer < other.signer then v else other
  }

  /** What the scan of the sorted changes checks at entry i. */
  predicate PassesScan(changes: seq<Validator>, i: nat)
    requires i < |changes|
  {
    && changes[i].signer != (if i == 0 then ZERO_ADDRESS else changes[i - 1].signer)
    && 0 <= changes[i].power <= MAX_TOTAL_POWER
  }

  lemma {:induction false} ScannedIsSorted(changes: seq<Validator>)
    requires Ascending(changes) && forall i :: 0 <= i < |changes| ==> PassesScan(changes, i)
    ensures Sorted(changes) && AllAdmissible(changes)
  {
    if changes != [] {
      var n := |changes| - 1;
      assert forall i :: 0 <= i < n ==> (PassesScan(changes[..n], i) <==> PassesScan(changes, i));
      ScannedIsSorted(changes[..n]);
      assert PassesScan(changes, n);
      assert PassesScan(changes, 0);
      forall i | 0 <= i < n
        ensures changes[i].signer < changes[n].signer && AdmissibleEntry(changes[i])
      {
        assert changes[..n][i].signer <= changes[n - 1].signer;
        assert AdmissibleEntry(changes[..n][i]);
      }
    }
  }

  lemma SameAdmissible(vs: seq<Validator>, ws: seq<Validator>)
    requires forall v :: v in ws ==> v in vs
    ensures AllAdmissible(vs) ==> AllAdmissible(ws)
  {
    if AllAdmissible(vs) {
      forall i | 0 <= i < |ws|
        ensures AdmissibleEntry(ws[i])
      {
        assert ws[i] in vs;
      }
    }
  }

  lemma AdmissibleAfterSort(vs: seq<Validator>)
    ensures AllAdmissible(vs) <==> AllAdmissible(SortByAddress(vs))
  {
    var s := SortByAddress(vs);
    forall v | v in s
      ensures v in vs
    {
      SortMembers(vs, v);
    }
    forall v | v in vs
      ensures v in s
    {
      SortMembers(vs, v);
    }
    SameAdmissible(vs, s);
    SameAdmissible(s, vs);
  }

  /** Scanning neighbours of the sorted list is enough to check the whole change set. */
  lemma ScanDecides(origChanges: seq<Validator>)
    ensures var changes := SortByAddress(origChanges);
            WellFormed(origChanges) <==> forall i :: 0 <= i < |changes| ==> PassesScan(changes, i)
  {
    var changes := SortByAddress(origChanges);
    SortKeepsRecords(origChanges);
    SortAscends(origChanges);
    AdmissibleAfterSort(origChanges);
    if forall i :: 0 <= i < |changes| ==> PassesScan(changes, i) {
      ScannedIsSorted(changes);
    }
    if Sorted(changes) && AllAdmissible(changes) {
      assert forall i :: 0 <= i < |changes| ==> PassesScan(changes, i);
    }
  }

  lemma NothingSelected(changes: seq<Validator>)
    ensures Select(changes[..0], true) == [] == Select(changes[..0], false)
  {
  }

  lemma SelectStep(changes: seq<Validator>, i: nat, zero: bool)
    requires i < |changes|
    ensures Select(changes[..i + 1], zero)
         == Select(changes[..i], zero) + if (changes[i].power == 0) == zero then [changes[i]] else []
  {
    assert changes[..i + 1][..i] == changes[..i];
  }

  /** Duplicates, negative or excessive powers are refused; the rest is sorted by address and
      split into updates and removals. */
  method ProcessChanges(origChanges: seq<Validator>)
    returns (ok: bool, updates: seq<Validator>, removals: seq<Validator>)
    ensures ok <==> WellFormed(origChanges)
    ensures ok <==> && (forall i, j :: 0 <= i < j < |origChanges| ==> origChanges[i].signer != origChanges[j].signer)
                    && (forall i :: 0 <= i < |origChanges| ==>
                         origChanges[i].signer != ZERO_ADDRESS && 0 <= origChanges[i].power <= MAX_TOTAL_POWER)
    ensures ok ==> updates == Updates(origChanges) && removals == Removals(origChanges)
  {
    WellFormedMeans(origChanges);
    hide Select, SortByAddress, WellFormed;
    var changes := SortByAddress(origChanges);
    ScanDecides(origChanges);
    NothingSelected(changes);
    removals, updates := [], [];
    var prevAddr := ZERO_ADDRESS;
    for i := 0 to |changes|
      invariant updates == Select(changes[..i], false) && removals == Select(changes[..i], true)
      invariant prevAddr == if i == 0 then ZERO_ADDRESS else changes[i - 1].signer
      invariant forall j :: 0 <= j < i ==> PassesScan(changes, j)
    {
      var valUpdate := changes[i];
      ghost var passes := PassesScan(changes, i);
      if valUpdate.signer == prevAddr {
        assert !passes;
        return false, [], [];
      }
      if valUpdate.power < 0 {
        assert !passes;
        return false, [], [];
      }
      if valUpdate.power > MAX_TOTAL_POWER {
        assert !passes;
        return false, [], [];
      }
      SelectStep(changes, i, true);
      SelectStep(changes, i, false);
      if valUpdate.power == 0 {
        removals := removals + [valUpdate];
      } else {
        updates := updates + [valUpdate];
      }
      prevAddr := valUpdate.signer;
    }
    assert changes[..|changes|] == changes;
    return true, updates, removals;
  }

  /** The change set leads to a map that is not empty. */
  ghost predicate Updatable(vs: seq<Validator>, changes: seq<Validator>) {
    NewTotal(vs, changes) >= 0 && ListOf(Target(vs, changes)) != []
  }

  /** The target map as a list, rescaled and centred. */
  ghost function Updated(vs: seq<Validator>, changes: seq<Validator>): seq<Validator>
    requires Updatable(vs, changes)
  {
    Normalised(ListOf(Target(vs, changes)))
  }

  predicate InBounds(ps: seq<int>) {
    forall i :: 0 <= i < |ps| ==> -2 * MAX_TOTAL_POWER <= ps[i] <= 3 * MAX_TOTAL_POWER
  }

  lemma BoundedByRecord(vs: seq<Validator>, k: Address)
    requires InBounds(PrioritiesOf(vs))
    ensures k in Records(vs) ==> -2 * MAX_TOTAL_POWER <= Records(vs)[k].priority <= 3 * MAX_TOTAL_POWER
  {
    if k in Records(vs) {
      var i :| 0 <= i < |vs| && vs[i] == Records(vs)[k];
      assert PrioritiesOf(vs)[i] == vs[i].priority;
    }
  }

  /** Members come with bounded priorities, newcomers enter above -1.125 times the total. */
  lemma TargetIsBounded(vs: seq<Validator>, ch: map<Address, Validator>, total: int, a: seq<Validator>)
    requires InBounds(PrioritiesOf(vs)) && 0 <= total <= MAX_TOTAL_POWER
    requires Distinct(a) && Records(a) == TargetMap(Records(vs), ch, total)
    requires forall k :: k in ch ==> ch[k].signer == k
    ensures InBounds(PrioritiesOf(a))
  {
    forall i | 0 <= i < |a|
      ensures -2 * MAX_TOTAL_POWER <= a[i].priority <= 3 * MAX_TOTAL_POWER
    {
      RecordsAt(a, i);
      BoundedByRecord(vs, a[i].signer);
    }
  }

  lemma ApplyingIsSafe(vs: seq<Validator>, changes: seq<Validator>)
    requires Sorted(vs) && AllPositive(vs) && InBounds(PrioritiesOf(vs))
    requires WellFormed(changes) && Within(Removals(changes), vs)
    requires NewTotal(vs, changes) <= MAX_TOTAL_POWER
    requires Overridden(PowerMap(vs), PowerMap(changes)) != map[]
    ensures NewTotal(vs, changes) >= 0
    ensures Sorted(Merged(vs, changes)) && Sorted(Removals(changes)) && Within(Removals(changes), Merged(vs, changes))
    ensures var a := Applied(vs, changes);
            && a == ListOf(Target(vs, changes)) && a != [] && Sorted(a) && AllPositive(a)
            && TotalPower(a) <= MAX_TOTAL_POWER && InBounds(PrioritiesOf(a))
  {
    MergedIsSound(vs, changes);
    AppliedIsSound(vs, changes);
    AppliedIsTarget(vs, changes);
    TargetPowers(vs, changes);
    TargetIsBounded(vs, Records(changes), NewTotal(vs, changes), Applied(vs, changes));
  }

  lemma LastTotalFits(vs: seq<Validator>, changes: seq<Validator>, updates: seq<Validator>)
    requires updates == Updates(changes) && TotalsFit(vs, updates)
    ensures TotalPower(vs) + Gain(updates, vs) == NewTotal(vs, changes) <= MAX_TOTAL_POWER
  {
    assert RunningTotal(vs, updates, |updates|) <= MAX_TOTAL_POWER;
    assert updates[..|updates|] == updates;
  }

  // ---------------------------------------------------------------- what an update does to priorities

  /** Of two members that stay, the one that was ahead is not behind. */
  ghost predicate OrderKept(was: map<Address, Validator>, now: map<Address, Validator>) {
    forall j, k :: j in was && k in was && j in now && k in now && was[j].priority <= was[k].priority ==>
      now[j].priority <= now[k].priority
  }

  /** The priorities of all that stay have moved by the same amount. */
  ghost predicate MovedBy(was: map<Address, Validator>, now: map<Address, Validator>, d: int) {
    forall k :: k in was && k in now ==> now[k].priority == was[k].priority - d
  }

  lemma LevelledEntries(a: seq<Validator>, r: seq<Validator>, ratio: int, shift: int)
    requires a != [] && Sorted(a) && LevelledFrom(a, r, ratio, shift)
    ensures |r| == |a| && Sorted(r)
    ensures forall i :: 0 <= i < |a| ==>
              && r[i].signer == a[i].signer && r[i] == a[i].(priority := r[i].priority)
              && QuotientTowardZero(a[i].priority, ratio, r[i].priority + shift)
  {
    hide QuotientTowardZero, SmallestRatio, Spread;
  }

  lemma LevelledRatio(a: seq<Validator>, r: seq<Validator>, ratio: int, shift: int)
    requires a != [] && LevelledFrom(a, r, ratio, shift)
    ensures ratio >= 1
    ensures Spread(PrioritiesOf(a)) <= 2 * TotalPower(a) ==> ratio == 1
  {
    hide QuotientTowardZero, Spread, TotalPower;
    if ratio > 1 {
      var d := 2 * TotalPower(a);
      Distribute(ratio - 1, 1, d);
      assert Spread(PrioritiesOf(a)) <= d ==> (ratio - 2) * d < 0;
      assert 0 <= Spread(PrioritiesOf(a)) <= ratio * d;
      ProductSign(ratio - 2, d);
      ProductSign(ratio, d);
      Distribute(ratio - 2, 1, d);
    }
  }

  /** Two lists with the same signers have records of the same entries. */
  lemma SamePlace(a: seq<Validator>, r: seq<Validator>, k: Address) returns (i: nat)
    requires Sorted(a) && Sorted(r) && |r| == |a| && forall i :: 0 <= i < |a| ==> r[i].signer == a[i].signer
    ensures k in Records(r) <==> k in Records(a)
    ensures k in Records(a) ==> i < |a| && Records(a)[k] == a[i] && Records(r)[k] == r[i]
  {
    i := 0;
    InRecords(a, k);
    InRecords(r, k);
    if k in Records(a) {
      i :| 0 <= i < |a| && a[i].signer == k;
      RecordsAt(a, i);
      RecordsAt(r, i);
      assert r[i].signer == k;
    }
  }

  lemma LevelledPair(a: seq<Validator>, r: seq<Validator>, ratio: int, shift: int, j: Address, k: Address)
    requires a != [] && Sorted(a) && LevelledFrom(a, r, ratio, shift)
    ensures (j in Records(r) <==> j in Records(a)) && (k in Records(r) <==> k in Records(a))
    ensures k in Records(a) ==> Records(r)[k] == Records(a)[k].(priority := Records(r)[k].priority)
    ensures k in Records(a) && ratio == 1 ==> Records(r)[k].priority == Records(a)[k].priority - shift
    ensures j in Records(a) && k in Records(a) && Records(a)[j].priority <= Records(a)[k].priority ==>
              Records(r)[j].priority <= Records(r)[k].priority
  {
    hide Records, QuotientTowardZero, LevelledFrom, Sorted;
    LevelledEntries(a, r, ratio, shift);
    LevelledRatio(a, r, ratio, shift);
    var x := SamePlace(a, r, j);
    var y := SamePlace(a, r, k);
    if k in Records(a) {
      QuotientsKeepOrder(a[y].priority, a[y].priority, ratio, r[y].priority + shift, r[y].priority + shift);
    }
    if j in Records(a) && k in Records(a) && a[x].priority <= a[y].priority {
      QuotientsKeepOrder(a[x].priority, a[y].priority, ratio, r[x].priority + shift, r[y].priority + shift);
    }
  }

  /** The records of a levelled list keep their order, and all but their priorities. */
  lemma LevelledRecords(a: seq<Validator>, r: seq<Validator>, ratio: int, shift: int)
    requires a != [] && Sorted(a) && LevelledFrom(a, r, ratio, shift)
    ensures Records(r).Keys == Records(a).Keys
    ensures forall k :: k in Records(a) ==> Records(r)[k] == Records(a)[k].(priority := Records(r)[k].priority)
    ensures OrderKept(Records(a), Records(r))
    ensures ratio == 1 ==> MovedBy(Records(a), Records(r), shift)
  {
    hide Records, LevelledFrom, Sorted;
    forall j, k
      ensures k in Records(r) <==> k in Records(a)
      ensures k in Records(a) ==> Records(r)[k] == Records(a)[k].(priority := Records(r)[k].priority)
      ensures k in Records(a) && ratio == 1 ==> Records(r)[k].priority == Records(a)[k].priority - shift
      ensures j in Records(a) && j in Records(r) && k in Records(a) && Records(a)[j].priority <= Records(a)[k].priority
              ==> Records(r)[j].priority <= Records(r)[k].priority
    {
      LevelledPair(a, r, ratio, shift, j, k);
    }
  }

  lemma CarriedOver(was: map<Address, Validator>, a: map<Address, Validator>, r: map<Address, Validator>)
    requires r.Keys == a.Keys && MovedBy(was, a, 0) && OrderKept(a, r)
    ensures OrderKept(was, r)
    ensures forall d :: MovedBy(a, r, d) ==> MovedBy(was, r, d)
  {
  }

  /** Priorities carried over from `was` into the list `a` keep their order when it is levelled, and move
      by one amount when it need not be rescaled. */
  lemma LevellingMoves(was: map<Address, Validator>, a: seq<Validator>)
    requires a != [] && Sorted(a) && AllPositive(a)
    requires MovedBy(was, Records(a), 0)
    ensures Sorted(Normalised(a)) && Records(Normalised(a)).Keys == Records(a).Keys
    ensures forall k :: k in Records(a) ==> Identity(Records(Normalised(a))[k]) == Identity(Records(a)[k])
    ensures OrderKept(was, Records(Normalised(a)))
    ensures Spread(PrioritiesOf(a)) <= 2 * TotalPower(a) ==>
              exists d :: MovedBy(Records(a), Records(Normalised(a)), d) && MovedBy(was, Records(Normalised(a)), d)
  {
    hide Records, LevelledFrom, Normalised, Spread, TotalPower, MovedBy, OrderKept;
    NormalisedIsLevelledFrom(a);
    var ratio, shift :| LevelledFrom(a, Normalised(a), ratio, shift);
    LevelledEntries(a, Normalised(a), ratio, shift);
    LevelledRecords(a, Normalised(a), ratio, shift);
    LevelledRatio(a, Normalised(a), ratio, shift);
    CarriedOver(was, Records(a), Records(Normalised(a)));
  }

  lemma SpreadOfSome(ps: seq<int>, qs: seq<int>)
    requires ps != [] && qs != [] && forall i :: 0 <= i < |qs| ==> qs[i] in ps
    ensures Spread(qs) <= Spread(ps)
  {
  }

  lemma SpreadOfMembers(vs: seq<Validator>, a: seq<Validator>)
    requires vs != [] && a != [] && Sorted(a)
    requires Records(a).Keys <= Records(vs).Keys && MovedBy(Records(vs), Records(a), 0)
    ensures Spread(PrioritiesOf(a)) <= Spread(PrioritiesOf(vs))
  {
    hide Spread;
    forall i | 0 <= i < |a|
      ensures PrioritiesOf(a)[i] in PrioritiesOf(vs)
    {
      RecordsAt(a, i);
      var k := a[i].signer;
      assert k in Records(a).Keys;
      var j :| 0 <= j < |vs| && vs[j] == Records(vs)[k];
      assert PrioritiesOf(vs)[j] == a[i].priority;
    }
    SpreadOfSome(PrioritiesOf(vs), PrioritiesOf(a));
  }

  lemma TargetAsList(vs: seq<Validator>, changes: seq<Validator>)
    requires Sorted(vs) && AllPositive(vs) && WellFormed(changes) && Within(Removals(changes), vs)
    requires Updatable(vs, changes)
    ensures NewTotal(vs, changes) >= 0 && MovedBy(Records(vs), Target(vs, changes), 0)
    ensures var a := ListOf(Target(vs, changes));
            && a != [] && Sorted(a) && AllPositive(a) && Records(a) == Target(vs, changes)
            && TotalPower(Updated(vs, changes)) == TotalPower(a) && Updated(vs, changes) == Normalised(a)
  {
    hide WellFormed, Within, Target, Rescaled, Centred;
    AppliedIsTarget(vs, changes);
    AppliedIsSound(vs, changes);
    var a := ListOf(Target(vs, changes));
    PrioritiesDoNotMatter(a, Centred(Rescaled(PrioritiesOf(a), 2 * TotalPower(a))));
    forall k | k in Records(vs) && k in Target(vs, changes)
      ensures Target(vs, changes)[k].priority == Records(vs)[k].priority
    {
      MembersKeepPriority(vs, changes, k);
    }
  }

  /** The members that an update leaves keep the order of their priorities. When nothing has to be rescaled,
      all priorities move by one amount: those of members from what they were, those of newcomers from what
      they enter with. */
  lemma UpdateMovesTogether(vs: seq<Validator>, changes: seq<Validator>)
    requires Sorted(vs) && AllPositive(vs) && WellFormed(changes) && Within(Removals(changes), vs)
    requires Updatable(vs, changes)
    ensures var now, target := Records(Updated(vs, changes)), Target(vs, changes);
            && now.Keys == target.Keys && OrderKept(Records(vs), now)
            && (Spread(PrioritiesOf(ListOf(target))) <= 2 * TotalPower(Updated(vs, changes)) ==>
                 exists d :: MovedBy(target, now, d) && MovedBy(Records(vs), now, d))
  {
    hide Records, Sorted, AllPositive, WellFormed, Within, Target, Normalised, Updated, Updatable, Spread, TotalPower;
    TargetAsList(vs, changes);
    LevellingMoves(Records(vs), ListOf(Target(vs, changes)));
  }

  /** Entries are those of the change set or the old ones, but for their priorities. */
  ghost predicate EntriesFrom(was: map<Address, Validator>, changes: map<Address, Validator>,
      now: map<Address, Validator>) {
    forall k :: k in now ==>
      && (k in was || k in changes)
      && Identity(now[k]) == Identity(if k in changes then changes[k] else was[k])
  }

  /** But for its priority, every entry of the result is that of the change set, or the old one. */
  lemma UpdateReplacesEntries(vs: seq<Validator>, changes: seq<Validator>)
    requires Sorted(vs) && AllPositive(vs) && WellFormed(changes) && Within(Removals(changes), vs)
    requires Updatable(vs, changes)
    ensures EntriesFrom(Records(vs), Records(changes), Records(Updated(vs, changes)))
  {
    hide Records, Sorted, AllPositive, WellFormed, Within, Target, Normalised, Updated, Updatable, Spread, TotalPower;
    TargetAsList(vs, changes);
    LevellingMoves(Records(vs), ListOf(Target(vs, changes)));
    forall k | k in Records(Updated(vs, changes))
      ensures k in Records(vs) || k in Records(changes)
      ensures Identity(Records(Updated(vs, changes))[k])
           == Identity(if k in Records(changes) then Records(changes)[k] else Records(vs)[k])
    {
      assert k in Records(ListOf(Target(vs, changes))).Keys;
      ChangesReplaceEntries(vs, changes, k);
    }
  }

  /** If nobody is new and the old priorities lie within twice the new total, all move by one amount. */
  ghost predicate MovesTogether(vs: seq<Validator>, r: seq<Validator>) {
    vs != [] && Records(r).Keys <= Records(vs).Keys && Spread(PrioritiesOf(vs)) <= 2 * TotalPower(r) ==>
      exists d :: MovedBy(Records(vs), Records(r), d)
  }

  lemma Unmoved(vs: seq<Validator>)
    ensures MovesTogether(vs, vs)
  {
    assert MovedBy(Records(vs), Records(vs), 0);
  }

  /** Without newcomers it is enough that the old priorities lie within twice the new total. */
  lemma MembersMoveTogether(vs: seq<Validator>, changes: seq<Validator>)
    requires Sorted(vs) && AllPositive(vs) && WellFormed(changes) && Within(Removals(changes), vs)
    requires Updatable(vs, changes)
    ensures MovesTogether(vs, Updated(vs, changes))
  {
    hide Records, Sorted, AllPositive, WellFormed, Within, Target, Normalised, Updated, Updatable, Spread, TotalPower;
    TargetAsList(vs, changes);
    UpdateMovesTogether(vs, changes);
    var r := Updated(vs, changes);
    if vs != [] && Records(r).Keys <= Records(vs).Keys {
      SpreadOfMembers(vs, ListOf(Target(vs, changes)));
    }
  }

  ghost function Grown(done: seq<Validator>, v: Validator, tail: seq<Validator>): (r: seq<Validator>)
    ensures r + tail == done + ([v] + tail)
  {
    done + [v]
  }

  /** merged[i] = v */
  method Put(merged: array<Validator>, i: nat, v: Validator)
    requires i < merged.Length
    modifies merged
    ensures merged[..i + 1] == old(merged[..i]) + [v]
  {
    merged[i] := v;
  }

  method CopyRest(merged: array<Validator>, start: nat, rest: seq<Validator>) returns (i: nat)
    requires start + |rest| <= merged.Length
    modifies merged
    ensures i == start + |rest| && merged[..i] == old(merged[..start]) + rest
  {
    i := start;
    for j := 0 to |rest|
      invariant i == start + j && merged[..i] == old(merged[..start]) + rest[..j]
    {
      Put(merged, i, rest[j]);
      i := i + 1;
    }
    assert rest[..|rest|] == rest;
  }

  lemma {:induction false} NewcomersAppend(updates: seq<Validator>, v: Validator, was: seq<Validator>)
    ensures Newcomers(updates + [v], was) == Newcomers(updates, was) + if Has(was, v.signer) then 0 else 1
  {
    if updates == [] {
      assert [v][1..] == [] && updates + [v] == [v];
    } else {
      NewcomersAppend(updates[1..], v, was);
      assert (updates + [v])[1..] == updates[1..] + [v];
    }
  }

  lemma OneMoreUpdate(vs: seq<Validator>, updates: seq<Validator>, i: nat)
    requires Sorted(vs) && AllPositive(vs) && Sorted(updates) && AllPositive(updates) && i < |updates|
    ensures 0 <= RunningTotal(vs, updates, i)
    ensures 0 <= RunningTotal(vs, updates, i + 1)
    ensures RunningTotal(vs, updates, i + 1)
         == RunningTotal(vs, updates, i) + updates[i].power - PowerAt(vs, updates[i].signer)
    ensures Newcomers(updates[..i + 1], vs) == Newcomers(updates[..i], vs) + if Has(vs, updates[i].signer) then 0 else 1
  {
    assert updates[..i + 1] == updates[..i] + [updates[i]];
    GainAppend(updates[..i], updates[i], vs);
    NewcomersAppend(updates[..i], updates[i], vs);
    TotalStaysNonNegative(vs, updates[..i]);
    TotalStaysNonNegative(vs, updates[..i + 1]);
  }

  lemma AbsentHasNoPower(vs: seq<Validator>, k: Address)
    requires Absent(vs, k)
    ensures PowerAt(vs, k) == 0 && !Has(vs, k)
  {
    PowerAtAbove(vs, k);
    HasIsPresence(vs, k);
  }

  lemma UpdatesAreSmall(changes: seq<Validator>)
    requires AllAdmissible(changes)
    ensures forall i :: 0 <= i < |Updates(changes)| ==> Updates(changes)[i].power <= MAX_TOTAL_POWER
  {
    SelectMembers(SortByAddress(changes), false);
    AdmissibleAfterSort(changes);
    forall i | 0 <= i < |Updates(changes)|
      ensures Updates(changes)[i].power <= MAX_TOTAL_POWER
    {
      var j :| 0 <= j < |SortByAddress(changes)| && SortByAddress(changes)[j] == Updates(changes)[i];
      assert AdmissibleEntry(SortByAddress(changes)[j]);
    }
  }

  /** What a round of additions needs: entries that are int64 values. */
  predicate Rotatable(vs: seq<Validator>) {
    vs != [] && AllInt64(PrioritiesOf(vs)) && AllInt64(PowersIn(vs)) && InInt64(TotalPower(vs))
  }

  ghost function OneRound(vs: seq<Validator>, total: int): seq<Validator>
    requires Rotatable(vs) && InInt64(total)
  {
    WithPriorities(vs, ClippedTurn(PrioritiesOf(vs), PowersIn(vs), total))
  }

  /** Who leads the list after everybody's priority has grown by its power. */
  ghost function LeaderOfRound(vs: seq<Validator>): (k: nat)
    requires Rotatable(vs)
    ensures k < |vs|
  {
    Leader(ClippedRaised(PrioritiesOf(vs), PowersIn(vs)))
  }

  /** The list after `times` rounds of the proposer rotation. */
  ghost function Rotated(vs: seq<Validator>, times: nat): seq<Validator>
    requires Rotatable(vs)
  {
    WithPriorities(vs, ClippedTurns(PrioritiesOf(vs), PowersIn(vs), TotalPower(vs), times))
  }

  lemma RotatedKeeps(vs: seq<Validator>, times: nat)
    requires Rotatable(vs)
    ensures Sorted(vs) ==> Sorted(Rotated(vs, times))
    ensures AllPositive(vs) ==> AllPositive(Rotated(vs, times))
    ensures TotalPower(Rotated(vs, times)) == TotalPower(vs)
    ensures PowerMap(Rotated(vs, times)) == PowerMap(vs)
    ensures Rotatable(Rotated(vs, times))
  {
    PrioritiesDoNotMatter(vs, ClippedTurns(PrioritiesOf(vs), PowersIn(vs), TotalPower(vs), times));
  }

  /** The leader of the last of `times` rounds. */
  ghost function Proposer(vs: seq<Validator>, times: nat): (k: nat)
    requires Rotatable(vs) && times > 0
    ensures k < |vs|
  {
    RotatedKeeps(vs, times - 1);
    LeaderOfRound(Rotated(vs, times - 1))
  }

  lemma RotatedStep(vs: seq<Validator>, times: nat)
    requires Rotatable(vs)
    ensures Rotatable(Rotated(vs, times))
    ensures OneRound(Rotated(vs, times), TotalPower(vs)) == Rotated(vs, times + 1)
  {
    RotatedKeeps(vs, times);
    var ps := ClippedTurns(PrioritiesOf(vs), PowersIn(vs), TotalPower(vs), times);
    PrioritiesDoNotMatter(vs, ps);
  }

  lemma PowersAreInt64(vs: seq<Validator>)
    requires AllPositive(vs) && TotalPower(vs) <= MAX_TOTAL_POWER
    ensures AllInt64(PowersIn(vs)) && PowersOf(PowersIn(vs), TotalPower(vs))
  {
    TotalPowerIsSum(vs);
    PowersWithinTotal(PowersIn(vs), TotalPower(vs));
  }

  lemma LevelledIsRotatable(vs: seq<Validator>)
    requires vs != [] && AllPositive(vs) && TotalPower(vs) <= MAX_TOTAL_POWER && InBounds(PrioritiesOf(vs))
    ensures Rotatable(vs) && Rotated(vs, 0) == vs
  {
    PowersAreInt64(vs);
    TotalIsPositive(vs);
  }

  lemma OneRoundIsBounded(vs: seq<Validator>)
    requires vs != [] && AllPositive(vs) && TotalPower(vs) <= MAX_TOTAL_POWER && Rotatable(vs)
    requires Levelled(PrioritiesOf(vs), TotalPower(vs))
    ensures InBounds(PrioritiesOf(Rotated(vs, 1)))
  {
    var ps, ws, total := PrioritiesOf(vs), PowersIn(vs), TotalPower(vs);
    PowersAreInt64(vs);
    TotalIsPositive(vs);
    NothingClips(ps, ws, total, 1);
    assert Turns(ps, ws, total, 0) == ps;
    TurnKeepsFloor(ps, ws, total);
    PowersWithinTotal(ws, total);
    PrioritiesDoNotMatter(vs, Turns(ps, ws, total, 1));
  }

  lemma QuotientSmaller(a: nat, r: nat)
    requires r > 0
    ensures 0 <= a / r <= a
  {
    ProductSign(a, r - 1);
    Distribute(r, -1, a);
    QuotientWithin(a, r, 0, a);
  }

  lemma TruncDivSmaller(a: int, r: int)
    requires r > 0
    ensures a >= 0 ==> 0 <= TruncDiv(a, r) <= a
    ensures a <= 0 ==> a <= TruncDiv(a, r) <= 0
  {
    if a >= 0 {
      QuotientSmaller(a, r);
    } else {
      QuotientSmaller(-a, r);
    }
  }

  lemma RescaledInBounds(ps: seq<int>, diffMax: int)
    requires ps != [] && InBounds(ps)
    ensures InBounds(Rescaled(ps, diffMax))
  {
    if diffMax > 0 && Spread(ps) > diffMax {
      var ratio := Ratio(Spread(ps), diffMax);
      RatioCovers(Spread(ps), diffMax);
      forall i | 0 <= i < |ps|
        ensures -2 * MAX_TOTAL_POWER <= TruncDiv(ps[i], ratio) <= 3 * MAX_TOTAL_POWER
      {
        TruncDivSmaller(ps[i], ratio);
      }
    }
  }

  lemma NormaliseIsSafe(vs: seq<Validator>, total: int)
    requires vs != [] && Sorted(vs) && AllPositive(vs) && total == TotalPower(vs) <= MAX_TOTAL_POWER
    requires InBounds(PrioritiesOf(vs))
    ensures 0 < total
    ensures var half := WithPriorities(vs, Rescaled(PrioritiesOf(vs), 2 * total));
            InBounds(PrioritiesOf(half)) && Normalised(vs) == WithPriorities(half, Centred(PrioritiesOf(half)))
    ensures Sorted(Normalised(vs)) && AllPositive(Normalised(vs)) && TotalPower(Normalised(vs)) == total
    ensures InBounds(PrioritiesOf(Normalised(vs))) && Levelled(PrioritiesOf(Normalised(vs)), total)
  {
    var ps := PrioritiesOf(vs);
    var scaled := Rescaled(ps, 2 * total);
    NormalisedIsLevelled(vs);
    RescaledInBounds(ps, 2 * total);
    PrioritiesDoNotMatter(vs, scaled);
    PrioritiesDoNotMatter(vs, Centred(scaled));
  }

  lemma AverageInBounds(ps: seq<int>)
    requires ps != [] && InBounds(ps)
    ensures -2 * MAX_TOTAL_POWER <= Average(ps) <= 3 * MAX_TOTAL_POWER
  {
    AverageWithin(ps);
  }

  lemma SpreadInBounds(ps: seq<int>)
    requires ps != [] && InBounds(ps)
    ensures Spread(ps) <= 5 * MAX_TOTAL_POWER
  {
  }

  lemma RatioFitsInt64(diff: nat, diffMax: int)
    requires diff <= 5 * MAX_TOTAL_POWER && 0 < diffMax <= 2 * MAX_TOTAL_POWER
    ensures TruncDiv(Wrap64(Wrap64(diff + diffMax) - 1), diffMax) == Ratio(diff, diffMax)
  {
  }

  class ValidatorSet {
    var validators: seq<Validator>
    var proposer: Option<Validator>
    /** 0 until it is computed. */
    var totalVotingPower: int

    /** Strictly sorted by address, positive powers, a total that fits and is cached right. */
    ghost predicate Ordered()
      reads this
    {
      && Sorted(validators) && AllPositive(validators)
      && TotalPower(validators) <= MAX_TOTAL_POWER
      && (totalVotingPower == 0 || totalVotingPower == TotalPower(validators))
    }

    /** The range of priorities in which no addition of the code can leave int64. */
    ghost predicate Bounded()
      reads this
    {
      InBounds(PrioritiesOf(validators))
    }

    ghost predicate Valid()
      reads this
    {
      Ordered() && Bounded()
    }

    constructor ()
      ensures Valid() && validators == [] && proposer == None
    {
      validators, proposer, totalVotingPower := [], None, 0;
    }

    // -------------------------------------------------------------- total and lookup

    method UpdateTotalVotingPower()
      requires AllPositive(validators) && TotalPower(validators) <= MAX_TOTAL_POWER
      modifies this`totalVotingPower
      ensures totalVotingPower == TotalPower(validators)
    {
      var sum := 0;
      assert validators[0..] == validators;
      for i := 0 to |validators|
        invariant 0 <= sum && sum + TotalPower(validators[i..]) == TotalPower(validators)
      {
        assert validators[i..][1..] == validators[i + 1..];
        TotalIsPositive(validators[i + 1..]);
        sum := SafeAddClip(sum, validators[i].power);
        if sum > MAX_TOTAL_POWER {
          assert false;
        }
      }
      totalVotingPower := sum;
    }

    method TotalVotingPower() returns (total: int)
      requires Ordered()
      modifies this`totalVotingPower
      ensures total == totalVotingPower == TotalPower(validators) && Ordered()
    {
      if totalVotingPower == 0 {
        UpdateTotalVotingPower();
      }
      return totalVotingPower;
    }

    /** sort.Search for the first address that is not smaller, then a check for equality. */
    method GetByAddress(address: Address) returns (index: int, val: Option<Validator>)
      requires Sorted(validators)
      ensures val.None? <==> Absent(validators, address)
      ensures val.None? ==> index == -1
      ensures val.Some? ==> 0 <= index < |validators| && validators[index] == val.value && val.value.signer == address
    {
      var lo, hi := 0, |validators|;
      while lo < hi
        invariant 0 <= lo <= hi <= |validators|
        invariant forall i :: 0 <= i < lo ==> validators[i].signer < address
        invariant forall i :: hi <= i < |validators| ==> address <= validators[i].signer
      {
        var mid := (lo + hi) / 2;
        if !(address <= validators[mid].signer) {
          lo := mid + 1;
        } else {
          hi := mid;
        }
      }
      if lo < |validators| && validators[lo].signer == address {
        return lo, Some(validators[lo]);
      }
      return -1, None;
    }

    // -------------------------------------------------------------- rescaling and centring

    method ComputeMaxMinPriorityDiff() returns (diff: int)
      requires validators != [] && Bounded()
      ensures diff == Spread(PrioritiesOf(validators))
    {
      var max, min := MIN_INT64, MAX_INT64;
      ghost var ps := PrioritiesOf(validators);
      for i := 0 to |validators|
        invariant i == 0 ==> max == MIN_INT64 && min == MAX_INT64
        invariant i > 0 ==> max == MaxOf(ps[..i]) && min == MinOf(ps[..i])
      {
        var v := validators[i];
        assert ps[..i + 1][..i] == ps[..i];
        if v.priority < min {
          min := v.priority;
        }
        if v.priority > max {
          max := v.priority;
        }
      }
      assert ps[..|validators|] == ps;
      diff := Wrap64(max - min);
      if diff < 0 {
        diff := Wrap64(-1 * diff);
      }
    }

    method RescalePriorities(diffMax: int)
      requires validators != [] && Bounded() && 0 <= diffMax <= 2 * MAX_TOTAL_POWER
      modifies this`validators
      ensures validators == WithPriorities(old(validators), Rescaled(PrioritiesOf(old(validators)), diffMax))
    {
      hide TruncDiv, Spread, Ratio;
      ghost var was := validators;
      if diffMax <= 0 {
        return;
      }
      var diff := ComputeMaxMinPriorityDiff();
      var ratio := TruncDiv(Wrap64(Wrap64(diff + diffMax) - 1), diffMax);
      SpreadInBounds(PrioritiesOf(was));
      RatioFitsInt64(diff, diffMax);
      if diff > diffMax {
        RatioCovers(diff, diffMax);
        for i := 0 to |validators|
          invariant |validators| == |was|
          invariant forall k :: 0 <= k < i ==> validators[k] == was[k].(priority := TruncDiv(was[k].priority, ratio))
          invariant forall k :: i <= k < |was| ==> validators[k] == was[k]
        {
          validators := validators[i := validators[i].(priority := TruncDiv(validators[i].priority, ratio))];
        }
      }
    }

    method ComputeAvgProposerPriority() returns (avg: int)
      requires validators != []
      ensures avg == Average(PrioritiesOf(validators))
    {
      var sum := 0;
      ghost var ps := PrioritiesOf(validators);
      for i := 0 to |validators|
        invariant sum == Sum(ps[..i])
      {
        sum := sum + validators[i].priority;
        assert ps[..i + 1][..i] == ps[..i];
      }
      assert ps[..|validators|] == ps;
      avg := sum / |validators|;
    }

    method ShiftByAvgProposerPriority()
      requires validators != [] && Bounded()
      modifies this`validators
      ensures validators == WithPriorities(old(validators), Centred(PrioritiesOf(old(validators))))
    {
      ghost var was := validators;
      var avg := ComputeAvgProposerPriority();
      AverageInBounds(PrioritiesOf(was));
      assert forall k :: 0 <= k < |was| ==> was[k].priority == PrioritiesOf(was)[k];
      for i := 0 to |validators|
        invariant |validators| == |was|
        invariant forall k :: 0 <= k < i ==> validators[k] == was[k].(priority := was[k].priority - avg)
        invariant forall k :: i <= k < |was| ==> validators[k] == was[k]
      {
        validators := validators[i := validators[i].(priority := SafeSubClip(validators[i].priority, avg))];
      }
    }

    /** Rescaling and centring, the tail of every update and the head of every increment. */
    method Normalise(total: int)
      requires Ordered() && Bounded() && validators != [] && total == TotalPower(validators)
      modifies this`validators
      ensures validators == Normalised(old(validators))
      ensures Valid() && Levelled(PrioritiesOf(validators), TotalPower(validators))
      ensures TotalPower(validators) == TotalPower(old(validators))
      ensures exists ratio, shift :: LevelledFrom(old(validators), validators, ratio, shift)
    {
      hide LevelledFrom;
      ghost var was := validators;
      NormaliseIsSafe(was, total);
      NormalisedIsLevelledFrom(was);
      RescalePriorities(Wrap64(2 * total));
      ShiftByAvgProposerPriority();
      assert validators == Normalised(was);
    }

    // -------------------------------------------------------------- proposer rotation

    method GetValWithMostPriority() returns (res: nat)
      requires validators != [] && Sorted(validators)
      ensures Leads(PrioritiesOf(validators), res)
    {
      res := 0;
      for i := 1 to |validators|
        invariant res < i && Leads(PrioritiesOf(validators)[..i], res)
      {
        if CompareProposerPriority(validators[res], validators[i]) == validators[i] {
          res := i;
        }
      }
      assert PrioritiesOf(validators)[..|validators|] == PrioritiesOf(validators);
    }

    /** One round: every priority grows by its power, and the leader, which is returned, pays
        the total. */
    method IncrementOnce(total: int) returns (mostest: Validator)
      requires Sorted(validators) && Rotatable(validators) && InInt64(total)
      modifies this`validators
      ensures Rotatable(old(validators)) && validators == OneRound(old(validators), total)
      ensures mostest == validators[LeaderOfRound(old(validators))]
    {
      ghost var was := validators;
      ghost var ps, ws := PrioritiesOf(was), PowersIn(was);
      ghost var up := ClippedRaised(ps, ws);
      for i := 0 to |validators|
        invariant |validators| == |was|
        invariant forall k :: 0 <= k < i ==> validators[k] == was[k].(priority := up[k])
        invariant forall k :: i <= k < |was| ==> validators[k] == was[k]
      {
        assert was[i].priority == ps[i] && was[i].power == ws[i];
        var newPrio := SafeAddClip(validators[i].priority, validators[i].power);
        validators := validators[i := validators[i].(priority := newPrio)];
      }
      assert PrioritiesOf(validators) == up;
      var k := GetValWithMostPriority();
      LeaderIsUnique(up, k);
      mostest := validators[k].(priority := SafeSubClip(validators[k].priority, total));
      validators := validators[k := mostest];
      assert validators[k] == mostest;
    }

    /** The priorities are rescaled and centred once, then `times` rounds are run. */
    method IncrementProposerPriority(times: int)
      requires Valid() && validators != [] && times > 0
      modifies this
      ensures Ordered() && Rotatable(Normalised(old(validators)))
      ensures validators == Rotated(Normalised(old(validators)), times)
      ensures proposer == Some(validators[Proposer(Normalised(old(validators)), times)])
      ensures times == 1 ==> Valid()
    {
      ghost var was := validators;
      var total := TotalVotingPower();
      NormaliseIsSafe(was, total);
      Normalise(total);
      ghost var start := validators;
      LevelledIsRotatable(start);
      proposer := None;
      for i := 0 to times
        invariant validators == Rotated(start, i) && totalVotingPower == total
        invariant i > 0 ==> proposer == Some(validators[Proposer(start, i)])
      {
        RotatedKeeps(start, i);
        var mostest := IncrementOnce(total);
        RotatedStep(start, i);
        proposer := Some(mostest);
      }
      RotatedKeeps(start, times);
      if times == 1 {
        OneRoundIsBounded(start);
      }
    }

    // -------------------------------------------------------------- updating by change set

    /** Adds the updates up in address order; refuses as soon as a running total is too large. */
    method VerifyUpdates(updates: seq<Validator>) returns (ok: bool, updatedTotal: int, numNew: nat)
      requires Ordered() && Sorted(updates) && AllPositive(updates)
      requires forall i :: 0 <= i < |updates| ==> updates[i].power <= MAX_TOTAL_POWER
      modifies this`totalVotingPower
      ensures Ordered()
      ensures ok <==> TotalsFit(validators, updates)
      ensures ok ==> updatedTotal == TotalPower(validators) + Gain(updates, validators)
      ensures ok ==> numNew == Newcomers(updates, validators)
    {
      updatedTotal := TotalVotingPower();
      numNew := 0;
      for i := 0 to |updates|
        invariant Ordered()
        invariant updatedTotal == RunningTotal(validators, updates, i)
        invariant numNew == Newcomers(updates[..i], validators)
        invariant forall k :: 0 <= k <= i ==> RunningTotal(validators, updates, k) <= MAX_TOTAL_POWER
      {
        var valUpdate := updates[i];
        var _, val := GetByAddress(valUpdate.signer);
        OneMoreUpdate(validators, updates, i);
        if val.None? {
          AbsentHasNoPower(validators, valUpdate.signer);
          updatedTotal := Wrap64(updatedTotal + valUpdate.power);
          numNew := numNew + 1;
        } else {
          PowerOfMember(validators, val.value);
          updatedTotal := Wrap64(updatedTotal + Wrap64(valUpdate.power - val.value.power));
        }
        if updatedTotal > MAX_TOTAL_POWER {
          return false, 0, 0;
        }
      }
      assert updates[..|updates|] == updates;
      ok := true;
    }

    /** Newcomers start at -1.125 times the new total, members keep their priority. */
    method ComputeNewPriorities(updates: seq<Validator>, updatedTotal: int) returns (r: seq<Validator>)
      requires Sorted(validators) && 0 <= updatedTotal <= MAX_TOTAL_POWER
      ensures r == EnteringAll(updates, Records(validators), updatedTotal)
      ensures |r| == |updates|
      ensures forall i | 0 <= i < |r| ::
                && Identity(r[i]) == Identity(updates[i])
                && if updates[i].signer in Records(validators) then
                     r[i].priority == Records(validators)[updates[i].signer].priority
                   else 9 * updatedTotal - 7 <= -8 * r[i].priority <= 9 * updatedTotal
    {
      r := updates;
      for i := 0 to |updates|
        invariant |r| == |updates|
        invariant forall k :: 0 <= k < i ==> r[k] == Entering(updates[k], Records(validators), updatedTotal)
        invariant forall k :: i <= k < |updates| ==> r[k] == updates[k]
      {
        var index, val := GetByAddress(r[i].signer);
        InRecords(validators, r[i].signer);
        if val.None? {
          r := r[i := r[i].(priority := Wrap64(-Wrap64(updatedTotal + updatedTotal / 8)))];
        } else {
          RecordsAt(validators, index);
          r := r[i := r[i].(priority := val.value.priority)];
        }
      }
    }

    method ApplyUpdates(updates: seq<Validator>)
      modifies this`validators
      ensures validators == Merge(old(validators), updates)
    {
      var existing, rest := validators, updates;
      var merged := new Validator[|existing| + |rest|](_ => Validator(0, 0, 0, 0, 0, 0, false, 0));
      var i := 0;
      ghost var done, result := [], Merge(existing, rest);
      while |existing| > 0 && |rest| > 0
        invariant 0 <= i && i + |existing| + |rest| <= merged.Length
        invariant merged[..i] == done && done + Merge(existing, rest) == result
        decreases |existing| + |rest|
      {
        if existing[0].signer < rest[0].signer {
          done := Grown(done, existing[0], Merge(existing[1..], rest));
          Put(merged, i, existing[0]);
          existing := existing[1..];
        } else {
          ghost var other := if existing[0].signer == rest[0].signer then existing[1..] else existing;
          done := Grown(done, rest[0], Merge(other, rest[1..]));
          Put(merged, i, rest[0]);
          if existing[0].signer == rest[0].signer {
            existing := existing[1..];
          }
          rest := rest[1..];
        }
        i := i + 1;
      }
      i := CopyRest(merged, i, existing);
      i := CopyRest(merged, i, rest);
      validators := merged[..i];
    }

    method VerifyRemovals(deletes: seq<Validator>) returns (ok: bool)
      requires Sorted(validators) && Sorted(deletes)
      ensures ok <==> Within(deletes, validators)
    {
      for i := 0 to |deletes|
        invariant forall j :: 0 <= j < i ==> !Absent(validators, deletes[j].signer)
      {
        var _, val := GetByAddress(deletes[i].signer);
        if val.None? {
          return false;
        }
      }
      if |deletes| > |validators| {
        RemoveLength(validators, deletes);
        assert false;
      }
      return true;
    }

    method ApplyRemovals(removals: seq<Validator>)
      requires Sorted(validators) && Sorted(removals) && Within(removals, validators)
      modifies this`validators
      ensures validators == Remove(old(validators), removals)
    {
      var existing, deletes := validators, removals;
      RemoveLength(existing, deletes);
      var merged := new Validator[|existing| - |deletes|](_ => Validator(0, 0, 0, 0, 0, 0, false, 0));
      var i := 0;
      ghost var done, result := [], Remove(existing, deletes);
      while |deletes| > 0
        invariant Sorted(existing) && Sorted(deletes) && Within(deletes, existing)
        invariant 0 <= i && |deletes| <= |existing| && i + |existing| - |deletes| == merged.Length
        invariant merged[..i] == done && done + Remove(existing, deletes) == result
        decreases |existing|
      {
        assert !Absent(existing, deletes[0].signer);
        WithinTail(deletes, existing);
        if existing[0].signer == deletes[0].signer {
          deletes := deletes[1..];
        } else {
          RemoveLength(existing[1..], deletes);
          done := Grown(done, existing[0], Remove(existing[1..], deletes));
          Put(merged, i, existing[0]);
          i := i + 1;
        }
        existing := existing[1..];
      }
      i := CopyRest(merged, i, existing);
      validators := merged[..i];
    }

    /** The first checks of updateWithChangeSet: the entries, and that removals hit members. */
    method CheckEntries(changes: seq<Validator>, allowDeletes: bool)
      returns (ok: bool, updates: seq<Validator>, deletes: seq<Validator>)
      requires Ordered()
      ensures ok <==> AcceptsEntries(validators, changes, allowDeletes)
      ensures ok ==> updates == Updates(changes) && deletes == Removals(changes)
    {
      ok, updates, deletes := ProcessChanges(changes);
      if !ok {
        return;
      }
      if !allowDeletes && |deletes| != 0 {
        return false, updates, deletes;
      }
      UpdatesAreSound(changes);
      ok := VerifyRemovals(deletes);
    }

    /** The remaining checks: the running totals, and that somebody is left. */
    method CheckTotals(ghost changes: seq<Validator>, updates: seq<Validator>, deletes: seq<Validator>)
      returns (ok: bool, updatedTotal: int)
      requires Ordered() && WellFormed(changes) && Within(Removals(changes), validators)
      requires updates == Updates(changes) && deletes == Removals(changes)
      modifies this`totalVotingPower
      ensures Ordered()
      ensures ok <==> AcceptsTotals(validators, changes)
      ensures ok ==> updatedTotal == NewTotal(validators, changes) <= MAX_TOTAL_POWER
    {
      hide Within, Updates, Removals, NewTotal;
      UpdatesAreSound(changes);
      UpdatesAreSmall(changes);
      var numNew;
      ok, updatedTotal, numNew := VerifyUpdates(updates);
      if !ok {
        return;
      }
      LastTotalFits(validators, changes, updates);
      NothingIsLeft(validators, changes);
      ok := !(numNew == 0 && |validators| == |deletes|);
    }

    /** Either the change set is accepted and the list becomes the normalised target, or the
        validators are as before. */
    method UpdateWithChangeSet(changes: seq<Validator>, allowDeletes: bool) returns (ok: bool)
      requires Valid()
      modifies this`validators, this`totalVotingPower
      ensures Valid()
      ensures ok <==> Accepts(old(validators), changes, allowDeletes)
      ensures ok <==> changes == [] || Acceptable(old(validators), changes, allowDeletes)
      ensures !ok || changes == [] ==> validators == old(validators)
      ensures ok && changes != [] ==>
        && Updatable(old(validators), changes) && validators == Updated(old(validators), changes)
        && Levelled(PrioritiesOf(validators), TotalPower(validators))
        && EntriesFrom(Records(old(validators)), Records(changes), Records(validators))
        && OrderKept(Records(old(validators)), Records(validators))
      ensures MovesTogether(old(validators), validators)
    {
      hide MovesTogether, Acceptable, EntriesFrom, OrderKept, Updated, Updatable, Levelled, WellFormed, Within;
      hide TotalsFit, Overridden, InBounds, Removals;
      AcceptsIff(validators, changes, allowDeletes);
      Unmoved(validators);
      if |changes| == 0 {
        return true;
      }
      var updates, deletes, updatedTotal;
      ok, updates, deletes := CheckEntries(changes, allowDeletes);
      if !ok {
        return;
      }
      ok, updatedTotal := CheckTotals(changes, updates, deletes);
      if !ok {
        return;
      }
      ApplyChanges(changes, updates, deletes, updatedTotal);
    }

    /** The part of updateWithChangeSet behind the checks. */
    method ApplyChanges(ghost changes: seq<Validator>, updates: seq<Validator>, deletes: seq<Validator>,
        updatedTotal: int)
      requires Valid() && WellFormed(changes) && Within(Removals(changes), validators)
      requires updates == Updates(changes) && deletes == Removals(changes)
      requires updatedTotal == NewTotal(validators, changes) <= MAX_TOTAL_POWER
      requires Overridden(PowerMap(validators), PowerMap(changes)) != map[]
      modifies this`validators, this`totalVotingPower
      ensures Valid() && Levelled(PrioritiesOf(validators), TotalPower(validators))
      ensures Updatable(old(validators), changes) && validators == Updated(old(validators), changes)
      ensures EntriesFrom(Records(old(validators)), Records(changes), Records(validators))
      ensures OrderKept(Records(old(validators)), Records(validators)) && MovesTogether(old(validators), validators)
    {
      hide EntriesFrom, OrderKept, MovesTogether;
      ghost var was := validators;
      ApplyingIsSafe(was, changes);
      var entering := ComputeNewPriorities(updates, updatedTotal);
      ApplyUpdates(entering);
      ApplyRemovals(deletes);
      UpdateTotalVotingPower();
      Normalise(totalVotingPower);
      UpdateReplacesEntries(was, changes);
      UpdateMovesTogether(was, changes);
      MembersMoveTogether(was, changes);
    }
  }

  /** A new set from a list of validators; the code panics where this returns None. */
  method NewValidatorSet(valz: seq<Validator>) returns (vals: Option<ValidatorSet>)
    ensures vals.Some? <==> Accepts([], valz, false)
    ensures vals.Some? ==> fresh(vals.value) && vals.value.Valid()
    ensures vals.Some? && valz == [] ==> vals.value.validators == []
    ensures vals.Some? && valz != [] ==>
      && Updatable([], valz) && Rotatable(Normalised(Updated([], valz)))
      && vals.value.validators == Rotated(Normalised(Updated([], valz)), 1)
      && vals.value.proposer == Some(vals.value.validators[Proposer(Normalised(Updated([], valz)), 1)])
  {
    var vset := new ValidatorSet();
    var ok := vset.UpdateWithChangeSet(valz, false);
    if !ok {
      return None;
    }
    if |valz| > 0 {
      vset.IncrementProposerPriority(1);
    }
    return Some(vset);
  }
}
