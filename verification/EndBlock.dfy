/** The validator-set part of the end blocker (app/app.go) and the updates it derives from the
    staking store (helper/util.go GetUpdatedValidators). */
module EndBlock {
  import opened GoInt
  import opened Options
  import opened Priorities
  import opened Validators
  import opened ChangeSets
  import opened ValidatorSets
  import opened ProposerRuns

  /** What GetUpdatedValidators emits for a stored validator, given the member of the current
      set with its signer. */
  function UpdateFor(v: Validator, member: Option<Validator>, ackCount: nat): Option<Validator> {
    if member.Some? && !v.IsCurrentValidator(ackCount) then Some(v.(power := 0))
    else if member.None? && v.IsCurrentValidator(ackCount) then Some(v)
    else if member.Some? && v.power != member.value.power then Some(v)
    else None
  }

  /** The entry of signer k, in the set or in the store. */
  function RecordAt(vs: seq<Validator>, k: Address): Option<Validator> {
    if k in Records(vs) then Some(Records(vs)[k]) else None
  }

  function UpdatesFrom(vset: seq<Validator>, stored: seq<Validator>, ackCount: nat): seq<Validator> {
    if stored == [] then []
    else
      var last := stored[|stored| - 1];
      var u := UpdateFor(last, RecordAt(vset, last.signer), ackCount);
      var before := UpdatesFrom(vset, stored[..|stored| - 1], ackCount);
      if u.Some? then before + [u.value] else before
  }

  /** The powers of the stored validators that are current. */
  function CurrentPowers(stored: seq<Validator>, ackCount: nat): map<Address, int> {
    map k | k in Records(stored) && Records(stored)[k].IsCurrentValidator(ackCount) :: Records(stored)[k].power
  }

  /** Both maps have signer k with the same power, or neither has it. */
  predicate SamePowerAt(m: map<Address, int>, n: map<Address, int>, k: Address) {
    (k in m <==> k in n) && (k in m ==> m[k] == n[k])
  }

  /** The updates are about the stored validators at whose addresses the set and the current stored powers
      differ, and no others; each carries the power that is to be. */
  ghost predicate TellsDifferences(updates: map<Address, int>, members: map<Address, int>, stored: seq<Validator>,
      ackCount: nat) {
    var current := CurrentPowers(stored, ackCount);
    forall k ::
      && (k in updates <==> k in Records(stored) && !SamePowerAt(members, current, k))
      && (k in updates ==> updates[k] == if k in current then current[k] else 0)
  }

  /** What the updates say of signer k is what UpdateFor says of its stored record. */
  ghost predicate EmittedAt(updates: map<Address, int>, record: Option<Validator>, member: Option<Validator>,
      ackCount: nat, k: Address) {
    if record.Some? then
      var u := UpdateFor(record.value, member, ackCount);
      (k in updates <==> u.Some?) && (k in updates ==> updates[k] == u.value.power)
    else k !in updates
  }

  lemma PowerMapAppend(vs: seq<Validator>, v: Validator)
    ensures PowerMap(vs + [v]) == PowerMap(vs)[v.signer := v.power]
  {
    assert (vs + [v])[..|vs|] == vs;
  }

  lemma LastRecordIsNew(stored: seq<Validator>)
    requires Sorted(stored) && stored != []
    ensures var n := |stored| - 1;
            && Sorted(stored[..n])
            && stored[n].signer !in Records(stored[..n])
            && Records(stored) == Records(stored[..n])[stored[n].signer := stored[n]]
  {
  }

  lemma UpdateForKeeps(v: Validator, member: Option<Validator>, ackCount: nat)
    ensures var u := UpdateFor(v, member, ackCount); u.Some? ==> u.value == v.(power := u.value.power)
  {
  }

  lemma EmittedStep(before: map<Address, int>, last: Validator, lastMember: Option<Validator>,
                    record: Option<Validator>, member: Option<Validator>, ackCount: nat, k: Address)
    requires EmittedAt(before, record, member, ackCount, k)
    requires k == last.signer ==> record.None? && member == lastMember
    ensures var u := UpdateFor(last, lastMember, ackCount);
            EmittedAt(if u.Some? then before[last.signer := u.value.power] else before,
                      if k == last.signer then Some(last) else record, member, ackCount, k)
  {
  }

  lemma {:induction false} UpdatesBySigner(vset: seq<Validator>, stored: seq<Validator>, ackCount: nat, k: Address)
    requires Sorted(stored)
    ensures var updates := PowerMap(UpdatesFrom(vset, stored, ackCount));
            EmittedAt(updates, RecordAt(stored, k), RecordAt(vset, k), ackCount, k)
  {
    if stored != [] {
      var n := |stored| - 1;
      var last, before := stored[n], UpdatesFrom(vset, stored[..n], ackCount);
      UpdatesBySigner(vset, stored[..n], ackCount, k);
      LastRecordIsNew(stored);
      var lastMember, record, member := RecordAt(vset, last.signer), RecordAt(stored[..n], k), RecordAt(vset, k);
      EmittedStep(PowerMap(before), last, lastMember, record, member, ackCount, k);
      var u := UpdateFor(last, RecordAt(vset, last.signer), ackCount);
      UpdateForKeeps(last, RecordAt(vset, last.signer), ackCount);
      if u.Some? {
        PowerMapAppend(before, u.value);
      }
    }
  }

  lemma EmittedIffDifferent(members: map<Address, Validator>, updates: map<Address, int>, stored: seq<Validator>,
      ackCount: nat, k: Address)
    requires k in Records(stored)
    requires EmittedAt(updates, RecordAt(stored, k), if k in members then Some(members[k]) else None, ackCount, k)
    ensures k in updates <==> !SamePowerAt(Powers(members), CurrentPowers(stored, ackCount), k)
    ensures k in updates ==>
              updates[k] == if k in CurrentPowers(stored, ackCount) then CurrentPowers(stored, ackCount)[k] else 0
  {
  }

  /** A stored validator is emitted exactly when the set and the current stored powers differ at its
      address, with the power it is to have. */
  lemma UpdateIffDifferent(vset: seq<Validator>, stored: seq<Validator>, ackCount: nat, k: Address)
    requires Sorted(stored) && k in Records(stored)
    ensures var updates, current := PowerMap(UpdatesFrom(vset, stored, ackCount)), CurrentPowers(stored, ackCount);
            && (k in updates <==> !SamePowerAt(PowerMap(vset), current, k))
            && (k in updates ==> updates[k] == if k in current then current[k] else 0)
  {
    PowerMapIsPowers(vset);
    UpdatesBySigner(vset, stored, ackCount, k);
    EmittedIffDifferent(Records(vset), PowerMap(UpdatesFrom(vset, stored, ackCount)), stored, ackCount, k);
  }

  /** Each update is a stored record but for its power, in the order of the store. */
  lemma {:induction false} UpdatesAreStored(vset: seq<Validator>, stored: seq<Validator>, ackCount: nat, u: Validator)
    requires Sorted(stored) && u in UpdatesFrom(vset, stored, ackCount)
    ensures u.signer in Records(stored) && u == Records(stored)[u.signer].(power := u.power)
  {
    hide UpdateFor, RecordAt, Records;
    var n := |stored| - 1;
    LastRecordIsNew(stored);
    UpdateForKeeps(stored[n], RecordAt(vset, stored[n].signer), ackCount);
    if u in UpdatesFrom(vset, stored[..n], ackCount) {
      UpdatesAreStored(vset, stored[..n], ackCount, u);
    }
  }

  lemma {:induction false} UpdatesAreSorted(vset: seq<Validator>, stored: seq<Validator>, ackCount: nat)
    requires Sorted(stored)
    ensures Sorted(UpdatesFrom(vset, stored, ackCount))
  {
    hide UpdateFor, RecordAt, Records;
    if stored != [] {
      var n := |stored| - 1;
      var before := UpdatesFrom(vset, stored[..n], ackCount);
      UpdatesAreSorted(vset, stored[..n], ackCount);
      UpdateForKeeps(stored[n], RecordAt(vset, stored[n].signer), ackCount);
      forall i | 0 <= i < |before|
        ensures before[i].signer < stored[n].signer
      {
        UpdatesAreStored(vset, stored[..n], ackCount, before[i]);
        InRecords(stored[..n], before[i].signer);
      }
    }
  }

  lemma KeysOfPowers(vs: seq<Validator>)
    ensures PowerMap(vs).Keys == Records(vs).Keys
  {
    PowerMapIsPowers(vs);
    assert Powers(Records(vs)).Keys == Records(vs).Keys;
  }

  lemma UpdatesInFull(vset: seq<Validator>, stored: seq<Validator>, ackCount: nat)
    ensures Sorted(stored) ==>
              var updates := UpdatesFrom(vset, stored, ackCount);
              && Sorted(updates) && TellsDifferences(PowerMap(updates), PowerMap(vset), stored, ackCount)
              && forall u :: u in updates ==> u.signer in Records(stored)
                                              && u == Records(stored)[u.signer].(power := u.power)
  {
    hide UpdatesFrom, Sorted, SamePowerAt, CurrentPowers, PowerMap;
    if Sorted(stored) {
      var updates, current := UpdatesFrom(vset, stored, ackCount), CurrentPowers(stored, ackCount);
      UpdatesAreSorted(vset, stored, ackCount);
      forall u | u in updates
        ensures u.signer in Records(stored) && u == Records(stored)[u.signer].(power := u.power)
      {
        UpdatesAreStored(vset, stored, ackCount, u);
      }
      forall k
        ensures k in PowerMap(updates) <==> k in Records(stored) && !SamePowerAt(PowerMap(vset), current, k)
        ensures k in PowerMap(updates) ==> PowerMap(updates)[k] == if k in current then current[k] else 0
      {
        KeysOfPowers(updates);
        InRecords(updates, k);
        if k in PowerMap(updates).Keys {
          var i :| 0 <= i < |updates| && updates[i].signer == k;
          assert updates[i] in updates;
        }
        if k in Records(stored) {
          UpdateIffDifferent(vset, stored, ackCount, k);
        }
      }
    }
  }

  method GetUpdatedValidators(currentSet: ValidatorSet, stored: seq<Validator>, ackCount: nat)
    returns (updates: seq<Validator>)
    requires Sorted(currentSet.validators)
    ensures updates == UpdatesFrom(currentSet.validators, stored, ackCount)
    ensures Sorted(stored) ==>
              && Sorted(updates)
              && TellsDifferences(PowerMap(updates), PowerMap(currentSet.validators), stored, ackCount)
              && forall u :: u in updates ==> u.signer in Records(stored)
                                              && u == Records(stored)[u.signer].(power := u.power)
  {
    UpdatesInFull(currentSet.validators, stored, ackCount);
    hide TellsDifferences;
    updates := [];
    ghost var vset := currentSet.validators;
    for i := 0 to |stored|
      invariant updates == UpdatesFrom(vset, stored[..i], ackCount)
    {
      assert stored[..i + 1][..i] == stored[..i];
      var validator := stored[i];
      var index, val := currentSet.GetByAddress(validator.signer);
      InRecords(vset, validator.signer);
      if val.Some? {
        RecordsAt(vset, index);
      }
      assert val == RecordAt(vset, validator.signer);
      if val.Some? && !validator.IsCurrentValidator(ackCount) {
        updates := updates + [validator.(power := 0)];
      } else if val.None? && validator.IsCurrentValidator(ackCount) {
        updates := updates + [validator];
      } else if val.Some? && validator.power != val.value.power {
        updates := updates + [validator];
      }
    }
    assert stored[..|stored|] == stored;
  }

  /** Every member of the set has a record in the store. */
  predicate Recorded(vset: seq<Validator>, stored: seq<Validator>) {
    forall k :: k in Records(vset) ==> k in Records(stored)
  }

  /** The set's address-to-power map overridden by the updates. */
  function Refreshed(vset: seq<Validator>, stored: seq<Validator>, ackCount: nat): map<Address, int> {
    Overridden(PowerMap(vset), PowerMap(UpdatesFrom(vset, stored, ackCount)))
  }

  lemma OverrideAt(members: map<Address, Validator>, updates: map<Address, int>, stored: seq<Validator>,
      ackCount: nat, k: Address)
    requires k in members ==> k in Records(stored)
    requires EmittedAt(updates, RecordAt(stored, k), if k in members then Some(members[k]) else None, ackCount, k)
    ensures SamePowerAt(Overridden(Powers(members), updates), CurrentPowers(stored, ackCount), k)
  {
  }

  lemma SynchronisedAt(vset: seq<Validator>, stored: seq<Validator>, ackCount: nat, k: Address)
    requires Sorted(stored) && (k in Records(vset) ==> k in Records(stored))
    ensures SamePowerAt(Refreshed(vset, stored, ackCount), CurrentPowers(stored, ackCount), k)
  {
    PowerMapIsPowers(vset);
    UpdatesBySigner(vset, stored, ackCount, k);
    OverrideAt(Records(vset), PowerMap(UpdatesFrom(vset, stored, ackCount)), stored, ackCount, k);
  }

  /** Synchronisation: overriding the set with the updates gives exactly the current stored
      validators, provided every member of the set has a record. */
  lemma UpdatesSynchronise(vset: seq<Validator>, stored: seq<Validator>, ackCount: nat)
    requires Sorted(stored)
    ensures Recorded(vset, stored) ==> Refreshed(vset, stored, ackCount) == CurrentPowers(stored, ackCount)
  {
    if Recorded(vset, stored) {
      var l, r := Refreshed(vset, stored, ackCount), CurrentPowers(stored, ackCount);
      forall k
        ensures k in l <==> k in r
        ensures k in l ==> l[k] == r[k]
      {
        SynchronisedAt(vset, stored, ackCount, k);
      }
    }
  }

  /** Conversely, a member without a record keeps its place for ever. */
  lemma OrphansStay(vset: seq<Validator>, stored: seq<Validator>, ackCount: nat, k: Address)
    requires Sorted(stored) && k in Records(vset) && k !in Records(stored)
    ensures var now := Refreshed(vset, stored, ackCount);
            k in now && k !in CurrentPowers(stored, ackCount)
  {
    PowerMapIsPowers(vset);
    UpdatesBySigner(vset, stored, ackCount, k);
  }

  lemma NoUpdatesNoChange(vs: seq<Validator>)
    ensures Accepts(vs, [], true) && Overridden(PowerMap(vs), PowerMap([])) == PowerMap(vs)
  {
  }

  /** With every member recorded, nothing is emitted exactly when the set is in step with the store. */
  lemma NothingToUpdateIff(vset: seq<Validator>, stored: seq<Validator>, ackCount: nat)
    requires Sorted(stored) && Recorded(vset, stored)
    ensures UpdatesFrom(vset, stored, ackCount) == [] <==> PowerMap(vset) == CurrentPowers(stored, ackCount)
  {
    hide UpdateFor, Records, Recorded, Sorted, UpdatesFrom;
    var updates, current := UpdatesFrom(vset, stored, ackCount), CurrentPowers(stored, ackCount);
    if updates == [] {
      UpdatesSynchronise(vset, stored, ackCount);
      NoUpdatesNoChange(vset);
    } else {
      var k := updates[0].signer;
      UpdatesAreStored(vset, stored, ackCount, updates[0]);
      InRecords(updates, k);
      KeysOfPowers(updates);
      assert k in PowerMap(updates).Keys;
      UpdateIffDifferent(vset, stored, ackCount, k);
    }
  }

  /** The set after the end of a block: the change set and one increment, or the old set when there
      is nothing to change or the change set is refused. */
  ghost function AfterEnd(vset: seq<Validator>, stored: seq<Validator>, ackCount: nat): (r: seq<Validator>)
    requires Good(vset)
    ensures Good(r)
  {
    var updates := UpdatesFrom(vset, stored, ackCount);
    if updates == [] || !Accepts(vset, updates, true) then vset
    else
      StepKeepsGood(vset, Update(updates));
      StepKeepsGood(Step(vset, Update(updates)), Increment);
      Step(Step(vset, Update(updates)), Increment)
  }

  function PairsOf(vs: seq<Validator>): (r: seq<(Address, int)>)
    ensures |r| == |vs| && forall i :: 0 <= i < |r| ==> r[i] == (vs[i].signer, vs[i].power)
  {
    if vs == [] then [] else PairsOf(vs[..|vs| - 1]) + [(vs[|vs| - 1].signer, vs[|vs| - 1].power)]
  }

  method ToPairs(setUpdates: seq<Validator>) returns (tmUpdates: seq<(Address, int)>)
    ensures tmUpdates == PairsOf(setUpdates)
  {
    tmUpdates := [];
    for i := 0 to |setUpdates|
      invariant tmUpdates == PairsOf(setUpdates[..i])
    {
      tmUpdates := tmUpdates + [(setUpdates[i].signer, setUpdates[i].power)];
      assert setUpdates[..i + 1][..i] == setUpdates[..i];
    }
    assert setUpdates[..|setUpdates|] == setUpdates;
  }

  /** The set as the keeper hands it out: a copy, with the total not yet computed. */
  method Copy(vset: ValidatorSet) returns (copy: ValidatorSet)
    requires vset.Valid()
    ensures fresh(copy) && copy.Valid() && copy.validators == vset.validators
  {
    copy := new ValidatorSet();
    copy.validators, copy.proposer := vset.validators, vset.proposer;
  }

  lemma UpdatedPowers(vs: seq<Validator>, changes: seq<Validator>)
    requires Sorted(vs) && AllPositive(vs) && changes != [] && Accepts(vs, changes, true)
    requires Updatable(vs, changes)
    ensures PowerMap(Updated(vs, changes)) == Overridden(PowerMap(vs), PowerMap(changes))
  {
    AppliedIsTarget(vs, changes);
    UpdateRefinesMapUpdate(vs, changes);
  }

  lemma PowersAfterIncrement(vs: seq<Validator>)
    requires vs != [] && Rotatable(Normalised(vs))
    ensures PowerMap(Rotated(Normalised(vs), 1)) == PowerMap(vs)
  {
    PrioritiesDoNotMatter(vs, Centred(Rescaled(PrioritiesOf(vs), 2 * TotalPower(vs))));
    RotatedKeeps(Normalised(vs), 1);
  }

  /** One round leads from `vs` to `r` and makes `proposer` the one who has paid in it. */
  ghost predicate RoundTo(vs: seq<Validator>, r: seq<Validator>, proposer: Option<Validator>) {
    exists p: nat :: Round(vs, r, p) && proposer == Some(r[p])
  }

  lemma ProposerOfRound(vs: seq<Validator>, r: seq<Validator>, p: nat)
    requires Round(vs, r, p)
    ensures p < |r| && RoundTo(vs, r, Some(r[p]))
  {
  }

  lemma ValidIsGood(vset: ValidatorSet)
    requires vset.Valid()
    ensures Good(vset.validators)
  {
  }

  /** The change set and the increment that follows it when it is accepted. */
  method Advance(vset: ValidatorSet, setUpdates: seq<Validator>) returns (ok: bool)
    requires vset.Valid() && setUpdates != []
    modifies vset
    ensures vset.Valid()
    ensures ok <==> Accepts(old(vset.validators), setUpdates, true)
    ensures Good(old(vset.validators)) && Good(Step(old(vset.validators), Update(setUpdates)))
    ensures ok ==> vset.validators == Step(Step(old(vset.validators), Update(setUpdates)), Increment)
    ensures ok ==> PowerMap(vset.validators) == Overridden(PowerMap(old(vset.validators)), PowerMap(setUpdates))
    ensures ok ==> RoundTo(Step(old(vset.validators), Update(setUpdates)), vset.validators, vset.proposer)
  {
    hide RoundTo, Round, Good, Accepts, PowerMap, Overridden, Normalised, Rotated, Proposer, Updated, Updatable;
    hide Levelled, EntriesFrom, OrderKept, MovesTogether, Acceptable, Rotatable, Records, TotalPower, PrioritiesOf;
    ghost var was := vset.validators;
    ValidIsGood(vset);
    ok := vset.UpdateWithChangeSet(setUpdates, true);
    if ok {
      ghost var updated := vset.validators;
      UpdatedPowers(was, setUpdates);
      UpdateThenRound(was, setUpdates);
      vset.IncrementProposerPriority(1);
      PowersAfterIncrement(updated);
      ProposerOfRound(updated, vset.validators, Proposer(Normalised(updated), 1));
    }
    StepKeepsGood(was, Update(setUpdates));
  }

  /** What the end blocker leaves when the change set is refused, empty or applied. */
  lemma EndCases(vset: seq<Validator>, stored: seq<Validator>, ackCount: nat)
    requires Good(vset)
    ensures var updates := UpdatesFrom(vset, stored, ackCount);
            && Good(Step(vset, Update(updates)))
            && (updates == [] || !Accepts(vset, updates, true) ==> AfterEnd(vset, stored, ackCount) == vset)
            && (updates != [] && Accepts(vset, updates, true) ==>
                 AfterEnd(vset, stored, ackCount) == Step(Step(vset, Update(updates)), Increment))
            && (updates == [] ==> Accepts(vset, updates, true) && Refreshed(vset, stored, ackCount) == PowerMap(vset))
    ensures var updates := UpdatesFrom(vset, stored, ackCount);
            Refreshed(vset, stored, ackCount) == Overridden(PowerMap(vset), PowerMap(updates))
  {
    hide Good, Step, PowerMap;
    StepKeepsGood(vset, Update(UpdatesFrom(vset, stored, ackCount)));
    NoUpdatesNoChange(vset);
  }

  /** The part of the application state the end blocker works on. */
  class App {
    var currentSet: ValidatorSet
    var stored: seq<Validator>
    var ackCount: nat

    constructor (vset: ValidatorSet, stored: seq<Validator>, ackCount: nat)
      ensures currentSet == vset && this.stored == stored && this.ackCount == ackCount
    {
      this.currentSet, this.stored, this.ackCount := vset, stored, ackCount;
    }

    /** Returns the validator updates for the consensus engine, and whether the set in the
        store is in step with them. On a refused change set nothing is written or returned, and the
        end blockers of the modules are not run. */
    method EndBlocker() returns (ok: bool, tmUpdates: seq<(Address, int)>)
      requires currentSet.Valid() && Sorted(stored)
      modifies this`currentSet
      ensures currentSet.Valid() && stored == old(stored) && ackCount == old(ackCount)
      ensures var was := old(currentSet.validators);
              ok <==> Accepts(was, UpdatesFrom(was, stored, ackCount), true)
      ensures !ok ==> currentSet == old(currentSet) && tmUpdates == []
      ensures unchanged(old(currentSet))
      ensures ok ==> tmUpdates == PairsOf(UpdatesFrom(old(currentSet.validators), stored, ackCount))
      ensures Good(old(currentSet.validators))
      ensures currentSet.validators == AfterEnd(old(currentSet.validators), stored, ackCount)
      ensures ok ==> PowerMap(currentSet.validators) == Refreshed(old(currentSet.validators), stored, ackCount)
      ensures ok && Recorded(old(currentSet.validators), stored) ==>
                PowerMap(currentSet.validators) == CurrentPowers(stored, ackCount)
      ensures ok && tmUpdates == [] ==> currentSet == old(currentSet)
      ensures var was := old(currentSet.validators);
              var updated := Step(was, Update(UpdatesFrom(was, stored, ackCount)));
              Good(updated) && (ok && tmUpdates != [] ==> RoundTo(updated, currentSet.validators, currentSet.proposer))
      ensures Recorded(old(currentSet.validators), stored) ==>
                var inStep := PowerMap(old(currentSet.validators)) == CurrentPowers(stored, ackCount);
                if inStep then ok && currentSet == old(currentSet) && tmUpdates == [] else ok ==> tmUpdates != []
    {
      hide RoundTo, TellsDifferences, Good, Step, AfterEnd, UpdatesFrom, Accepts, PowerMap, Overridden, Refreshed;
      hide Recorded, CurrentPowers;
      ghost var was := currentSet.validators;
      ValidIsGood(currentSet);
      EndCases(was, stored, ackCount);
      UpdatesSynchronise(was, stored, ackCount);
      if Recorded(was, stored) {
        NothingToUpdateIff(was, stored, ackCount);
      }
      var copy := Copy(currentSet);
      var setUpdates := GetUpdatedValidators(copy, stored, ackCount);
      tmUpdates := [];
      ok := true;
      if |setUpdates| > 0 {
        ok := Advance(copy, setUpdates);
        if !ok {
          return;
        }
        currentSet := copy;
        tmUpdates := ToPairs(setUpdates);
      }
    }
  }

  // ---------------------------------------------------------------- over whole runs

  /** What happens to the set: a rotation, or the end of a block with the store it finds. */
  datatype Event = Rotation | BlockEnd(stored: seq<Validator>, ackCount: nat)

  ghost function AfterEvent(vset: seq<Validator>, e: Event): (r: seq<Validator>)
    requires Good(vset)
    ensures Good(r)
  {
    match e
    case Rotation =>
      StepKeepsGood(vset, Increment);
      Step(vset, Increment)
    case BlockEnd(stored, ackCount) => AfterEnd(vset, stored, ackCount)
  }

  ghost function AfterEvents(vset: seq<Validator>, events: seq<Event>): (r: seq<Validator>)
    requires Good(vset)
    ensures Good(r)
  {
    if events == [] then vset else AfterEvent(AfterEvents(vset, events[..|events| - 1]), events[|events| - 1])
  }

  /** The store that the last end of a block has found. */
  function LastStore(stored: seq<Validator>, events: seq<Event>): seq<Validator> {
    if events == [] then stored
    else match events[|events| - 1]
      case Rotation => LastStore(stored, events[..|events| - 1])
      case BlockEnd(now, _) => now
  }

  /** The keeper keeps its records sorted and deletes none. */
  predicate NoneDeleted(stored: seq<Validator>, events: seq<Event>) {
    events == [] ||
    var before, e := events[..|events| - 1], events[|events| - 1];
    && NoneDeleted(stored, before)
    && (e.BlockEnd? ==> Sorted(e.stored) && Records(LastStore(stored, before)).Keys <= Records(e.stored).Keys)
  }

  lemma SameKeysRecorded(vs: seq<Validator>, was: seq<Validator>, stored: seq<Validator>)
    requires PowerMap(vs).Keys <= PowerMap(was).Keys && Recorded(was, stored)
    ensures Recorded(vs, stored)
  {
    KeysOfPowers(vs);
    KeysOfPowers(was);
  }

  lemma CurrentAreRecorded(vs: seq<Validator>, stored: seq<Validator>, ackCount: nat)
    requires PowerMap(vs) == CurrentPowers(stored, ackCount)
    ensures Recorded(vs, stored)
  {
    KeysOfPowers(vs);
    forall k | k in Records(vs)
      ensures k in Records(stored)
    {
      assert k in PowerMap(vs).Keys;
    }
  }

  lemma AcceptedIsNotEmpty(vset: seq<Validator>, changes: seq<Validator>)
    requires Good(vset) && changes != [] && Accepts(vset, changes, true)
    ensures Updatable(vset, changes) && Updated(vset, changes) != []
  {
    AcceptedIsGood(vset, changes);
  }

  /** An accepted end of a block, whatever the set was, leaves what the updates call for. */
  lemma AcceptedEndRefreshes(vset: seq<Validator>, stored: seq<Validator>, ackCount: nat)
    requires Good(vset) && Accepts(vset, UpdatesFrom(vset, stored, ackCount), true)
    ensures PowerMap(AfterEnd(vset, stored, ackCount)) == Refreshed(vset, stored, ackCount)
  {
    hide PowerMap, Accepts, Overridden, UpdatesFrom, Updated, Rotated, Normalised, InBounds, Rotatable;
    var updates := UpdatesFrom(vset, stored, ackCount);
    if updates == [] {
      NoUpdatesNoChange(vset);
    } else {
      AcceptedIsGood(vset, updates);
      UpdatedPowers(vset, updates);
      AcceptedIsNotEmpty(vset, updates);
      GoodIsLevelled(Updated(vset, updates));
      PowersAfterIncrement(Updated(vset, updates));
    }
  }

  lemma RotationKeepsPowers(vset: seq<Validator>)
    requires Good(vset)
    ensures PowerMap(Step(vset, Increment)) == PowerMap(vset)
  {
    hide PowerMap, Rotated, Normalised, InBounds, Rotatable;
    if vset != [] {
      GoodIsLevelled(vset);
      PowersAfterIncrement(vset);
    }
  }

  lemma EndKeepsRecorded(vset: seq<Validator>, stored: seq<Validator>, ackCount: nat)
    requires Good(vset) && Sorted(stored) && Recorded(vset, stored)
    ensures Recorded(AfterEnd(vset, stored, ackCount), stored)
  {
    hide Good, PowerMap, Step, Recorded, Refreshed, CurrentPowers, Sorted;
    if Accepts(vset, UpdatesFrom(vset, stored, ackCount), true) {
      AcceptedEndRefreshes(vset, stored, ackCount);
      UpdatesSynchronise(vset, stored, ackCount);
      CurrentAreRecorded(AfterEnd(vset, stored, ackCount), stored, ackCount);
    }
  }

  /** Members have records, always. */
  lemma {:induction false} MembersStayRecorded(vset: seq<Validator>, stored: seq<Validator>, events: seq<Event>)
    requires Good(vset) && Recorded(vset, stored) && NoneDeleted(stored, events)
    ensures Recorded(AfterEvents(vset, events), LastStore(stored, events))
  {
    hide Good, PowerMap, Step, AfterEnd;
    if events != [] {
      var before, e := events[..|events| - 1], events[|events| - 1];
      var now := AfterEvents(vset, before);
      MembersStayRecorded(vset, stored, before);
      match e
      case Rotation =>
        RotationKeepsPowers(now);
        SameKeysRecorded(Step(now, Increment), now, LastStore(stored, before));
      case BlockEnd(next, ackCount) =>
        assert Recorded(now, next);
        EndKeepsRecorded(now, next, ackCount);
    }
  }

  /** Over every run with a keeper that deletes no record: each accepted end of a block leaves
      exactly the current stored validators with their powers. */
  lemma EveryEndSynchronises(vset: seq<Validator>, stored: seq<Validator>, events: seq<Event>, e: Event)
    requires Good(vset) && Recorded(vset, stored) && e.BlockEnd? && NoneDeleted(stored, events + [e])
    requires Accepts(AfterEvents(vset, events), UpdatesFrom(AfterEvents(vset, events), e.stored, e.ackCount), true)
    ensures PowerMap(AfterEvents(vset, events + [e])) == CurrentPowers(e.stored, e.ackCount)
  {
    hide Good, PowerMap, AfterEnd, Refreshed, CurrentPowers, Accepts;
    assert (events + [e])[..|events|] == events;
    MembersStayRecorded(vset, stored, events);
    AcceptedEndRefreshes(AfterEvents(vset, events), e.stored, e.ackCount);
    UpdatesSynchronise(AfterEvents(vset, events), e.stored, e.ackCount);
  }

  /** The members after such an end, by epoch: the epoch is one more than the acknowledgements counted, a
      validator takes part from its start epoch on and until just before its end epoch, if it has one. */
  lemma MembersByEpoch(vset: seq<Validator>, stored: seq<Validator>, events: seq<Event>, e: Event, k: Address)
    requires Good(vset) && Recorded(vset, stored) && e.BlockEnd? && NoneDeleted(stored, events + [e])
    requires Accepts(AfterEvents(vset, events), UpdatesFrom(AfterEvents(vset, events), e.stored, e.ackCount), true)
    requires e.ackCount < MAX_UINT64
    ensures var now, epoch := PowerMap(AfterEvents(vset, events + [e])), e.ackCount + 1;
            && (k in now ==> k in Records(e.stored))
            && (k in Records(e.stored) ==>
                 var v := Records(e.stored)[k];
                 && (k in now <==> v.power > 0 && !v.jailed && v.startEpoch <= epoch
                                   && (v.endEpoch != 0 ==> epoch < v.endEpoch))
                 && (k in now ==> now[k] == v.power))
  {
    hide Good, PowerMap, AfterEvents, Records, Accepts, Recorded, NoneDeleted;
    EveryEndSynchronises(vset, stored, events, e);
  }

  /** All priorities have moved by one amount and grown by the power, and the proposer has paid the total. */
  ghost predicate MovedAndRaised(was: map<Address, Validator>, now: map<Address, Validator>, d: int, p: Address,
      total: int) {
    && p in now
    && forall k :: k in now && k in was ==>
         now[k].priority == was[k].priority - d + now[k].power - if k == p then total else 0
  }

  lemma RoundSigners(vs: seq<Validator>, r: seq<Validator>, proposer: nat)
    requires Sorted(vs) && Round(vs, r, proposer)
    ensures |r| == |vs| && Sorted(r) && TotalPower(r) == TotalPower(vs)
    ensures forall i :: 0 <= i < |vs| ==> r[i].signer == vs[i].signer && r[i].power == vs[i].power
  {
    assert r == WithPriorities(vs, PrioritiesOf(r));
    PrioritiesDoNotMatter(vs, PrioritiesOf(r));
  }

  lemma RoundAt(vs: seq<Validator>, r: seq<Validator>, proposer: nat, i: nat)
    requires Sorted(vs) && Round(vs, r, proposer) && i < |vs|
    ensures |r| == |vs|
    ensures r[i].priority == vs[i].priority + r[i].power
                             - if vs[i].signer == vs[proposer].signer then TotalPower(vs) else 0
  {
    hide TotalPower;
    assert i == proposer <==> vs[i].signer == vs[proposer].signer;
  }

  lemma RoundOfRecords(vs: seq<Validator>, r: seq<Validator>, proposer: nat)
    requires Sorted(vs) && Round(vs, r, proposer)
    ensures TotalPower(r) == TotalPower(vs) && Records(r).Keys == Records(vs).Keys
    ensures MovedAndRaised(Records(vs), Records(r), 0, vs[proposer].signer, TotalPower(vs))
  {
    hide Records, TotalPower, Round, Sorted;
    RoundSigners(vs, r, proposer);
    assert proposer < |vs| by {
      ProposerOfRound(vs, r, proposer);
    }
    InRecords(vs, vs[proposer].signer);
    forall k
      ensures k in Records(r) <==> k in Records(vs)
      ensures k in Records(vs) ==>
                Records(r)[k].priority == Records(vs)[k].priority + Records(r)[k].power
                                          - if k == vs[proposer].signer then TotalPower(vs) else 0
    {
      var i := SamePlace(vs, r, k);
      if k in Records(vs) {
        RoundAt(vs, r, proposer, i);
      }
    }
  }

  lemma MovedThenRaised(was: map<Address, Validator>, mid: map<Address, Validator>, now: map<Address, Validator>,
      d: int, p: Address, total: int)
    requires now.Keys == mid.Keys && MovedBy(was, mid, d) && MovedAndRaised(mid, now, 0, p, total)
    ensures MovedAndRaised(was, now, d, p, total)
  {
  }

  /** What an end of a block with updates does to every priority when nobody is new and nothing has to be
      rescaled: all move by one amount and grow by their power, and the proposer pays the total. */
  lemma EndInNumbers(vset: seq<Validator>, stored: seq<Validator>, ackCount: nat)
    requires Good(vset) && vset != []
    requires UpdatesFrom(vset, stored, ackCount) != [] && Accepts(vset, UpdatesFrom(vset, stored, ackCount), true)
    requires Records(AfterEnd(vset, stored, ackCount)).Keys <= Records(vset).Keys
    requires Spread(PrioritiesOf(vset)) <= 2 * TotalPower(AfterEnd(vset, stored, ackCount))
    ensures var r := AfterEnd(vset, stored, ackCount);
            exists d, p :: MovedAndRaised(Records(vset), Records(r), d, p, TotalPower(r))
  {
    hide Round, Updated, Updatable, Normalised, Rotatable, Proposer, Records, Spread, TotalPower, InBounds;
    hide PowerMap, Overridden, TotalsFit, MovedBy, MovedAndRaised;
    var updates := UpdatesFrom(vset, stored, ackCount);
    UpdateThenRound(vset, updates);
    var mid, r := Updated(vset, updates), AfterEnd(vset, stored, ackCount);
    var i := Proposer(Normalised(mid), 1);
    RoundOfRecords(mid, r, i);
    MembersMoveTogether(vset, updates);
    var d :| MovedBy(Records(vset), Records(mid), d);
    MovedThenRaised(Records(vset), Records(mid), Records(r), d, mid[i].signer, TotalPower(r));
  }
}
