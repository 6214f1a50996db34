/** A validator set whose rotation is unfair for ever (types/validator-set.go). The priorities of
    twelve members, equal at first, come back every 147 calls, with one rescaling in every such
    period. The lightest member then proposes once in a period, though its share is 0.59. */
module ProposerDrift {
  import opened Sums
  import opened Priorities
  import opened Validators
  import opened ChangeSets
  import opened ValidatorSets
  import opened ProposerRuns
  import opened ProposerCalls
  import opened ProposerCycles
  import opened GroupRounds

  // ---------------------------------------------------------------- the validator set

  /** How many calls it takes to come back, and to get there from equal priorities. */
  const PERIOD: nat := 147
  const LEAD: nat := 2 * PERIOD

  function Members(ps: seq<int>): (r: seq<Validator>)
    requires |ps| == 12
    ensures |r| == 12
  {
    seq(12, i requires 0 <= i < 12 => Validator(i + 1, 0, 0, POWERS[i], 0, i + 1, false, ps[i]))
  }

  /** Newly created: all priorities are equal. */
  const FRESH := Members(Listed(EQUAL))

  /** When the spread of 1500 has come above 2P = 1488. */
  const START := Members(Listed(DOUBLED))

  lemma SumOfEqual(s: seq<int>, x: int)
    requires forall i :: 0 <= i < |s| ==> s[i] == x
    ensures Sum(s) == |s| * x
  {
    SumAtMost(s, x);
    SumAtLeast(s, x);
  }

  lemma SumOfGroups(s: seq<int>, light: int, mid: int, heavy: int, top: int)
    requires |s| == 12 && s[0] == light && s[11] == top
    requires (forall i :: 1 <= i < 8 ==> s[i] == mid) && (forall i :: 8 <= i < 11 ==> s[i] == heavy)
    ensures Sum(s) == light + 7 * mid + 3 * heavy + top
  {
    var a, b, c, d := s[..1], s[1..8], s[8..11], s[11..];
    assert s == a + b + c + d;
    SumConcat(a + b + c, d);
    SumConcat(a + b, c);
    SumConcat(a, b);
    SumOfEqual(a, light);
    SumOfEqual(b, mid);
    SumOfEqual(c, heavy);
    SumOfEqual(d, top);
  }

  lemma MembersAreGood(g: Groups)
    requires Proper(g) && InBounds(Listed(g))
    ensures Good(Members(Listed(g))) && TotalPower(Members(Listed(g))) == TOTAL
    ensures PowersIn(Members(Listed(g))) == POWERS && PrioritiesOf(Members(Listed(g))) == Listed(g)
  {
    hide Sum, Listed;
    var vs := Members(Listed(g));
    assert PowersIn(vs) == POWERS;
    assert PrioritiesOf(vs) == Listed(g);
    TotalPowerIsSum(vs);
    SumOfGroups(POWERS, 3, 30, 122, 165);
    forall i | 0 <= i < 12
      ensures POWERS[i] > 0
    {
      PowerOfEntry(i);
    }
  }

  lemma DoubledIsHalved()
    ensures Spread(Listed(DOUBLED)) == 1500
    ensures Rescaled(Listed(DOUBLED), 2 * TOTAL) == Listed(HALVED)
  {
    hide MaxOf, MinOf;
    var ps := Listed(DOUBLED);
    assert ps[0] == -606 && ps[11] == 894;
    assert Spread(ps) == 1500;
    assert Ratio(1500, 2 * TOTAL) == 2;
  }

  /** Groups in step whose sum is 0 are centred. */
  lemma GroupsAreCentred(g: Groups)
    requires g.midPaid == 0 == g.heavyPaid && g.light + 7 * g.mid + 3 * g.heavy + g.top == 0
    ensures Centred(Listed(g)) == Listed(g)
  {
    hide Sum;
    SumOfGroups(Listed(g), g.light, g.mid, g.heavy, g.top);
    assert Average(Listed(g)) == 0;
  }

  lemma StartIsHalved()
    ensures Good(START) && |START| == 12 && Rescales(START)
    ensures TotalPower(START) == TOTAL && PowersIn(START) == POWERS
    ensures PrioritiesOf(Normalised(START)) == Listed(HALVED)
  {
    hide Good, Sum, Spread, Rescaled, Centred;
    MembersAreGood(DOUBLED);
    PrioritiesOfNormalised(START);
    DoubledIsHalved();
    GroupsAreCentred(HALVED);
  }

  lemma FreshIsLevel()
    ensures Good(FRESH) && |FRESH| == 12 && TotalPower(FRESH) == TOTAL && PowersIn(FRESH) == POWERS
    ensures Normalised(FRESH) == FRESH && PrioritiesOf(FRESH) == Listed(EQUAL)
  {
    hide Good, Sum, MaxOf, MinOf, Centred;
    MembersAreGood(EQUAL);
    PrioritiesOfNormalised(FRESH);
    assert Spread(Listed(EQUAL)) == 0;
    GroupsAreCentred(EQUAL);
  }

  lemma NarrowDoesNotRescale(vs: seq<Validator>, g: Groups, low: int)
    requires |vs| == 12 && PrioritiesOf(vs) == Listed(g) && TotalPower(vs) == TOTAL && Proper(g) && Narrow(g, low)
    ensures !Rescales(vs)
  {
    hide MaxOf, MinOf;
    assert forall i :: 0 <= i < 12 ==> low <= Listed(g)[i] <= low + 2 * TOTAL;
  }

  /** Rounds through narrow lists are calls that do not rescale. */
  lemma {:induction false} RoundsAreCalls(vs: seq<Validator>, j: nat, g: Groups, k: nat, h: Groups, low: int)
    requires Good(vs) && |vs| == 12 && PowersIn(vs) == POWERS && TotalPower(vs) == TOTAL
    requires k > 0 && Proper(g) && Reaches(g, k, h, low)
    requires |Called(vs, j)| == 12 && PrioritiesOf(Normalised(Called(vs, j))) == Listed(g)
    ensures PrioritiesOf(Called(vs, j + k)) == Listed(h)
    ensures Rescalings(vs, j + k) == Rescalings(vs, j + 1)
    decreases k
  {
    hide Good, Step, Called, Normalised, Turn, Winner, GroupTurn, Narrow, Listed, Levelled, PowersOf, Rescalings;
    var next := GroupTurn(g);
    CalledKeeps(vs, j);
    CalledStep(vs, j + 1);
    CallIsTurn(Called(vs, j));
    GroupTurnIsTurn(g);
    if k > 1 {
      CalledKeeps(vs, j + 1);
      NarrowDoesNotRescale(Called(vs, j + 1), next, low);
      LaterCallRescalesIff(vs, j + 1);
      RescalingsStep(vs, j + 1);
      RoundsAreCalls(vs, j + 1, next, k - 1, h, low);
    }
  }

  lemma SameMembers(vs: seq<Validator>, was: Groups, now: Groups)
    requires vs == WithPriorities(Members(Listed(was)), Listed(now))
    ensures vs == Members(Listed(now))
  {
    hide Listed;
  }

  /** A newly created set comes to the rescaling after 294 calls, none of which rescales ... */
  lemma FreshComesToStart()
    ensures Good(FRESH) && |FRESH| == 12
    ensures Called(FRESH, LEAD) == START && Rescalings(FRESH, LEAD) == 0
  {
    hide Good, Called, Normalised, Reaches, Listed, Rescalings, Rescales;
    FreshIsLevel();
    RescalingsStep(FRESH, 0);
    CalledStep(FRESH, 0);
    FirstRounds();
    RoundsAreCalls(FRESH, 0, EQUAL, 147, HALVED, -650);
    CalledKeeps(FRESH, PERIOD);
    NarrowDoesNotRescale(Called(FRESH, PERIOD), HALVED, -700);
    LaterCallRescalesIff(FRESH, PERIOD);
    RescalingsStep(FRESH, PERIOD);
    SecondRounds();
    RoundsAreCalls(FRESH, PERIOD, HALVED, 147, DOUBLED, -700);
    CalledParts(FRESH, LEAD);
    SameMembers(Called(FRESH, LEAD), EQUAL, DOUBLED);
  }

  /** ... and from there it comes back to it every 147 calls, rescaled once each time. */
  lemma StartComesBack()
    ensures Good(START) && |START| == 12 && Rescales(START)
    ensures Called(START, PERIOD) == START && Rescalings(START, PERIOD) == 0
  {
    hide Good, Called, Normalised, Reaches, Listed, Rescalings, Rescales;
    StartIsHalved();
    RescalingsStep(START, 0);
    CalledStep(START, 0);
    SecondRounds();
    RoundsAreCalls(START, 0, HALVED, 147, DOUBLED, -700);
    CalledParts(START, PERIOD);
    SameMembers(Called(START, PERIOD), DOUBLED, DOUBLED);
  }

  // ---------------------------------------------------------------- for ever

  /** One period: the light member proposes once, the top one 32 times. */
  lemma OnePeriod()
    ensures Good(START) && |START| == 12
    ensures Served(START, PERIOD, 0) == 1 && Excess(START, PERIOD, 0) == 303
    ensures Served(START, PERIOD, 11) == 32 && Excess(START, PERIOD, 11) == -447
  {
    hide Good, Called, Served, Drift, Rescalings, Rescales, Normalised;
    StartIsHalved();
    StartComesBack();
    assert START[0].power == 3 && START[0].priority == -606 && START[11].power == 165 && START[11].priority == 894;
    assert PrioritiesOf(Normalised(START))[0] == -303 && PrioritiesOf(Normalised(START))[11] == 447;
    LedgerOfCalls(START, PERIOD, 0);
    DriftIsBounded(START, PERIOD, 0);
    LedgerOfCalls(START, PERIOD, 11);
    DriftIsBounded(START, PERIOD, 11);
  }

  lemma FirstServices()
    ensures Good(FRESH) && |FRESH| == 12
    ensures Served(FRESH, LEAD, 0) == 2 && Excess(FRESH, LEAD, 0) == 606
    ensures Served(FRESH, LEAD, 11) == 64 && Excess(FRESH, LEAD, 11) == -894
  {
    hide Good, Called, Served, Drift, Rescalings, Rescales, Normalised;
    FreshIsLevel();
    FreshComesToStart();
    assert FRESH[0].power == 3 && FRESH[0].priority == 0 && FRESH[11].power == 165 && FRESH[11].priority == 0;
    assert START[0].priority == -606 && START[11].priority == 894;
    LedgerOfCalls(FRESH, LEAD, 0);
    DriftIsBounded(FRESH, LEAD, 0);
    LedgerOfCalls(FRESH, LEAD, 11);
    DriftIsBounded(FRESH, LEAD, 11);
  }

  lemma PeriodsAddUp(m: nat, i: nat)
    requires i < 12
    ensures Good(FRESH) && |FRESH| == 12 && Good(START) && |START| == 12
    ensures Called(FRESH, LEAD + PERIOD * m) == START
    ensures Served(FRESH, LEAD + PERIOD * m, i) == Served(FRESH, LEAD, i) + m * Served(START, PERIOD, i)
    ensures Excess(FRESH, LEAD + PERIOD * m, i) == Excess(FRESH, LEAD, i) + m * Excess(START, PERIOD, i)
  {
    hide Good, Called, Served, Excess, Rescalings, Rescales;
    FreshIsLevel();
    FreshComesToStart();
    StartComesBack();
    PeriodRepeats(START, PERIOD, m, PERIOD * m, i);
    CallsCompose(FRESH, LEAD, PERIOD * m, i);
    ExcessComposes(FRESH, LEAD, PERIOD * m, i);
  }

  /** With m periods more, the light member of a newly created set has (606 + 303 m) / 744 services
      more than its share, and the top one (894 + 447 m) / 744 less. */
  lemma UnfairForever(m: nat)
    ensures Good(FRESH) && |FRESH| == 12 && Called(FRESH, LEAD + PERIOD * m) == START
    ensures Served(FRESH, LEAD + PERIOD * m, 0) == 2 + m && Excess(FRESH, LEAD + PERIOD * m, 0) == 606 + 303 * m
    ensures Served(FRESH, LEAD + PERIOD * m, 11) == 64 + 32 * m
    ensures Excess(FRESH, LEAD + PERIOD * m, 11) == -894 - 447 * m
  {
    hide Good, Called, Served, Excess;
    FirstServices();
    OnePeriod();
    PeriodsAddUp(m, 0);
    PeriodsAddUp(m, 11);
  }

  lemma CycleOfEach(i: nat)
    requires i < 12
    ensures Good(FRESH) && |FRESH| == 12 && ComesBack(FRESH, LEAD, PERIOD)
    ensures CycleExcess(FRESH, LEAD, PERIOD, i) == PriorityAt(HALVED, i) - PriorityAt(DOUBLED, i)
  {
    hide Good, Called, Excess, Drift, Rescalings, Rescales, Normalised;
    FreshIsLevel();
    FreshComesToStart();
    StartIsHalved();
    StartComesBack();
    CallsCompose(FRESH, LEAD, PERIOD, i);
    ExcessFromLedger(START, PERIOD, i);
    DriftIsBounded(START, PERIOD, i);
    assert START[i].priority == PriorityAt(DOUBLED, i);
    assert PrioritiesOf(Normalised(START))[i] == PriorityAt(HALVED, i);
  }

  /** Nobody in this set is served fairly: the cycle leaves each of the twelve with too much or too
      little, so no constant bounds its services. */
  lemma NoBoundHolds(i: nat)
    requires i < 12
    ensures Good(FRESH) && |FRESH| == 12 && !FairForEver(FRESH, i)
    ensures forall bound: nat :: !ExcessWithin(FRESH, i, bound)
  {
    hide Good, Called, CycleExcess, ComesBack, ExcessWithin;
    CycleOfEach(i);
    FairIffCycleIsBalanced(FRESH, LEAD, PERIOD, i);
  }

  // ---------------------------------------------------------------- how such a set comes about

  lemma {:induction false} SelectPositive(vs: seq<Validator>)
    requires AllPositive(vs)
    ensures Select(vs, false) == vs && Select(vs, true) == []
  {
    if vs != [] {
      SelectPositive(vs[..|vs| - 1]);
    }
  }

  /** A sorted list of positive powers is its own list of updates. */
  lemma UpdatesOfSorted(vs: seq<Validator>)
    requires Sorted(vs) && AllPositive(vs)
    ensures Updates(vs) == vs && Removals(vs) == []
  {
    hide SortByAddress, Select, ListOf, Records;
    SortKeepsRecords(vs);
    SortedIsListOf(SortByAddress(vs));
    SortedIsListOf(vs);
    SelectPositive(vs);
  }

  lemma TotalOfPrefix(vs: seq<Validator>, k: nat)
    requires AllPositive(vs) && k <= |vs|
    ensures TotalPower(vs[..k]) <= TotalPower(vs)
  {
    TotalPowerIsSum(vs[..k]);
    TotalPowerIsSum(vs);
    assert PowersIn(vs[..k]) == PowersIn(vs)[..k];
    assert PowersIn(vs)[..|vs|] == PowersIn(vs);
    PrefixSums(PowersIn(vs), k, |vs|);
  }

  lemma NothingYet(vs: seq<Validator>)
    ensures TotalPower([]) == 0 && Sorted([]) && AllPositive([])
    ensures forall e: seq<Validator> :: Remove(Merge([], e), []) == e
  {
  }

  lemma PowersAreSmall(vs: seq<Validator>)
    requires Sorted(vs) && AllPositive(vs) && vs != [] && TotalPower(vs) <= MAX_TOTAL_POWER && vs[0].signer != 0
    ensures WellFormed(vs)
  {
    PowersAreInt64(vs);
    PowersWithinTotal(PowersIn(vs), TotalPower(vs));
    forall i | 0 <= i < |vs|
      ensures AdmissibleEntry(vs[i])
    {
      assert PowersIn(vs)[i] == vs[i].power;
    }
  }

  /** From nothing, every sorted list of positive powers that fits is accepted, and its members
      enter with one and the same priority. */
  lemma NewListIsAccepted(vs: seq<Validator>)
    requires Sorted(vs) && AllPositive(vs) && vs != [] && TotalPower(vs) <= MAX_TOTAL_POWER && vs[0].signer != 0
    ensures Accepts([], vs, false) && NewTotal([], vs) == TotalPower(vs) >= 0
    ensures ListOf(Target([], vs)) == WithPriorities(vs, seq(|vs|, i => NewcomerPriority(TotalPower(vs))))
  {
    hide ListOf, Target, Updates, Removals, TotalPower, NewcomerPriority;
    UpdatesOfSorted(vs);
    TotalIsPositive(vs);
    NothingYet(vs);
    PowersAreSmall(vs);
    forall k | 0 <= k <= |vs|
      ensures RunningTotal([], vs, k) <= MAX_TOTAL_POWER
    {
      GainOverNothing(vs[..k]);
      TotalOfPrefix(vs, k);
    }
    GainOverNothing(vs);
    NewcomersToNothing(vs);
    NothingIsLeft([], vs);
    AppliedIsTarget([], vs);
  }

  lemma EqualAreCentred(s: seq<int>, p: int)
    requires |s| == 12 && forall i :: 0 <= i < 12 ==> s[i] == p
    ensures Centred(s) == Listed(EQUAL)
  {
    hide Sum;
    SumOfEqual(s, p);
    assert Average(s) == p;
    assert forall i :: 0 <= i < 12 ==> PriorityAt(EQUAL, i) == 0;
  }

  lemma EnteredIsLevelled(ps: seq<int>, p: int)
    requires |ps| == 12 && forall i :: 0 <= i < 12 ==> ps[i] == p
    ensures Normalised(WithPriorities(FRESH, ps)) == FRESH
  {
    hide TotalPower, Centred, MaxOf, MinOf, Listed;
    FreshIsLevel();
    PrioritiesDoNotMatter(FRESH, ps);
    assert Spread(ps) == 0;
    EqualAreCentred(ps, p);
  }

  /** A set made of these twelve validators begins with equal priorities, and its creation ends
      with the first call. */
  lemma FreshIsCreated()
    ensures Accepts([], FRESH, false) && Updatable([], FRESH) && Updated([], FRESH) == FRESH
    ensures Good(FRESH) && Rotatable(Normalised(FRESH)) && Called(FRESH, 1) == Rotated(Normalised(FRESH), 1)
  {
    hide ListOf, Target, TotalPower, Accepts, Normalised, Listed, Good, Called, Rotated, Rotatable;
    FreshIsLevel();
    CalledStep(FRESH, 0);
    CalledStep(FRESH, 1);
    GoodIsLevelled(FRESH);
    NewListIsAccepted(FRESH);
    EnteredIsLevelled(seq(12, i => NewcomerPriority(TOTAL)), NewcomerPriority(TOTAL));
  }
}
