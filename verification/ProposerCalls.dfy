/** The rotation as the node runs it (types/validator-set.go): successive calls of
    IncrementProposerPriority(1), one for every acknowledgement of the stake chain and every no-ack,
    each of which rescales and centres anew. Service is fair up to what later rescalings add. */
module ProposerCalls {
  import opened GoInt
  import opened Sums
  import opened Priorities
  import opened Validators
  import opened ChangeSets
  import opened ValidatorSets
  import opened ProposerRuns

  // ---------------------------------------------------------------- successive calls

  /** The list after k calls of IncrementProposerPriority(1). */
  ghost function Called(vs: seq<Validator>, k: nat): (r: seq<Validator>)
    requires Good(vs)
    ensures Good(r)
  {
    if k == 0 then vs
    else
      StepKeepsGood(Called(vs, k - 1), Increment);
      Step(Called(vs, k - 1), Increment)
  }

  lemma CalledStep(vs: seq<Validator>, k: nat)
    requires Good(vs)
    ensures Called(vs, 0) == vs
    ensures k > 0 ==> Called(vs, k) == Step(Called(vs, k - 1), Increment)
  {
    hide Good, Step;
  }

  function Increments(k: nat): seq<Op> {
    if k == 0 then [] else Increments(k - 1) + [Increment]
  }

  lemma {:induction false} RunAppend(vs: seq<Validator>, ops: seq<Op>, op: Op)
    requires Good(vs)
    ensures Run(vs, ops + [op]) == Step(Run(vs, ops), op)
    decreases |ops|
  {
    hide Step, Good;
    StepKeepsGood(vs, (ops + [op])[0]);
    if ops == [] {
      assert ([] + [op])[1..] == [];
    } else {
      RunAppend(Step(vs, ops[0]), ops[1..], op);
      assert (ops + [op])[1..] == ops[1..] + [op];
    }
  }

  lemma NothingRun(vs: seq<Validator>)
    requires Good(vs)
    ensures Run(vs, []) == vs
  {
  }

  /** Successive calls are the runs of increments alone. */
  lemma {:induction false} CalledIsRun(vs: seq<Validator>, k: nat)
    requires Good(vs)
    ensures Run(vs, Increments(k)) == Called(vs, k)
  {
    hide Run, Step, Good, Called;
    CalledStep(vs, k);
    if k == 0 {
      NothingRun(vs);
    } else {
      CalledIsRun(vs, k - 1);
      RunAppend(vs, Increments(k - 1), Increment);
    }
  }

  /** One call is one exact round from levelled priorities, and keeps members and powers. */
  lemma CallIsTurn(vs: seq<Validator>)
    requires Good(vs) && vs != []
    ensures |Step(vs, Increment)| == |vs| && PowersIn(Step(vs, Increment)) == PowersIn(vs)
    ensures TotalPower(Step(vs, Increment)) == TotalPower(vs)
    ensures Rotatable(Normalised(vs))
    ensures var ps, ws, total := PrioritiesOf(Normalised(vs)), PowersIn(vs), TotalPower(vs);
            && Levelled(ps, total) && PowersOf(ws, total) && total > 0
            && PrioritiesOf(Step(vs, Increment)) == Turn(ps, ws, total)
            && Proposer(Normalised(vs), 1) == Winner(ps, ws)
  {
    hide Levelled, Normalised, ClippedTurns, ClippedRaised, Winner, PowersOf, AllInt64, Sorted, InBounds, Turn;
    var ps, ws, total := PrioritiesOf(Normalised(vs)), PowersIn(vs), TotalPower(vs);
    GoodIsLevelled(vs);
    GoodIsPlain(vs);
    NormalisedPowers(vs);
    PowersAreInt64(vs);
    TotalIsPositive(vs);
    RotatedParts(Normalised(vs), 1);
    RotatedKeeps(Normalised(vs), 1);
    ProposerIsWinner(vs, 1);
  }

  lemma {:induction false} CalledKeeps(vs: seq<Validator>, k: nat)
    requires Good(vs) && vs != []
    ensures |Called(vs, k)| == |vs| && PowersIn(Called(vs, k)) == PowersIn(vs)
    ensures TotalPower(Called(vs, k)) == TotalPower(vs)
  {
    hide Good, Step, Called;
    CalledStep(vs, k);
    if k > 0 {
      CalledKeeps(vs, k - 1);
      CallIsTurn(Called(vs, k - 1));
    }
  }

  // ---------------------------------------------------------------- when a call rescales

  /** A call divides the priorities exactly when they have come more than 2P apart. */
  predicate Rescales(vs: seq<Validator>)
    requires vs != []
  {
    Spread(PrioritiesOf(vs)) > 2 * TotalPower(vs)
  }

  /** After the first call, the head of a call changes the list exactly when it rescales. */
  lemma LaterCallRescalesIff(vs: seq<Validator>, k: nat)
    requires Good(vs) && vs != [] && k > 0
    ensures |Called(vs, k)| == |vs|
    ensures Normalised(Called(vs, k)) != Called(vs, k) <==> Rescales(Called(vs, k))
  {
    hide Good, Step, Normalised, Rescaled, Centred, Turn;
    var was, now := Called(vs, k - 1), Called(vs, k);
    CalledKeeps(vs, k - 1);
    CallIsTurn(was);
    TurnKeepsSum(PrioritiesOf(Normalised(was)), PowersIn(was), TotalPower(was));
    PrioritiesOfNormalised(now);
    LevellingIsIdentityIff(PrioritiesOf(now), 2 * TotalPower(now));
  }

  /** Call k + 1 rescales. */
  ghost predicate CallRescales(vs: seq<Validator>, k: nat)
    requires Good(vs) && vs != []
  {
    CalledKeeps(vs, k);
    Rescales(Called(vs, k))
  }

  /** How many of the first k calls, the first not counted, rescale. */
  ghost function Rescalings(vs: seq<Validator>, k: nat): nat
    requires Good(vs) && vs != []
  {
    if k <= 1 then 0 else Rescalings(vs, k - 1) + if CallRescales(vs, k - 1) then 1 else 0
  }

  lemma RescalingsStep(vs: seq<Validator>, k: nat)
    requires Good(vs) && vs != []
    ensures Rescalings(vs, 0) == 0
    ensures Rescalings(vs, k + 1) == Rescalings(vs, k) + if k > 0 && CallRescales(vs, k) then 1 else 0
  {
    hide CallRescales;
  }

  // ---------------------------------------------------------------- fairness

  /** Who proposes after call k + 1. */
  ghost function ProposerOfCall(vs: seq<Validator>, k: nat): (i: nat)
    requires Good(vs) && vs != []
    ensures i < |vs|
  {
    CalledKeeps(vs, k);
    CallIsTurn(Called(vs, k));
    Proposer(Normalised(Called(vs, k)), 1)
  }

  /** How many of the first k calls make entry i the proposer. */
  ghost function Served(vs: seq<Validator>, k: nat, i: nat): nat
    requires Good(vs) && vs != []
  {
    if k == 0 then 0
    else Served(vs, k - 1, i) + if ProposerOfCall(vs, k - 1) == i then 1 else 0
  }

  /** What one call does to the account of entry i. */
  lemma CallOnAccount(vs: seq<Validator>, k: nat, i: nat)
    requires Good(vs) && i < |vs|
    ensures |Called(vs, k)| == |Called(vs, k + 1)| == |vs|
    ensures var total := TotalPower(vs);
            var start, next := Normalised(Called(vs, k))[i].priority, Called(vs, k + 1)[i].priority;
            && next == start + vs[i].power - (if ProposerOfCall(vs, k) == i then total else 0)
            && -2 * total <= start <= 2 * total && -2 * total <= next <= 3 * total
  {
    hide Good, Step, Normalised, Winner, Called;
    var now := Called(vs, k);
    CalledStep(vs, k + 1);
    CalledKeeps(vs, k);
    CalledKeeps(vs, k + 1);
    CallIsTurn(now);
    var ps, ws, total := PrioritiesOf(Normalised(now)), PowersIn(now), TotalPower(now);
    assert ps[i] == Normalised(now)[i].priority && ws[i] == PowersIn(vs)[i] == vs[i].power;
    assert PrioritiesOf(Called(vs, k + 1))[i] == Called(vs, k + 1)[i].priority;
    TurnKeepsFloor(ps, ws, total);
    PowersWithinTotal(ws, total);
    assert Turn(ps, ws, total)[i] <= ps[i] + ws[i];
  }

  ghost function DriftOfCall(vs: seq<Validator>, k: nat, i: nat): int
    requires Good(vs) && i < |vs|
  {
    CalledKeeps(vs, k);
    Normalised(Called(vs, k))[i].priority - Called(vs, k)[i].priority
  }

  /** What rescaling and centring at the head of the later calls add to the account. */
  ghost function Drift(vs: seq<Validator>, k: nat, i: nat): int
    requires Good(vs) && i < |vs|
  {
    if k <= 1 then 0 else Drift(vs, k - 1, i) + DriftOfCall(vs, k - 1, i)
  }

  /** A later call adds nothing unless it rescales, and then at most 5P. */
  lemma DriftNeedsRescaling(vs: seq<Validator>, k: nat, i: nat)
    requires Good(vs) && i < |vs| && k > 0
    ensures if CallRescales(vs, k) then -5 * TotalPower(vs) <= DriftOfCall(vs, k, i) <= 4 * TotalPower(vs)
            else DriftOfCall(vs, k, i) == 0
  {
    hide Good, Step, Normalised, Called, ProposerOfCall, Spread;
    LaterCallRescalesIff(vs, k);
    CallOnAccount(vs, k - 1, i);
    CallOnAccount(vs, k, i);
  }

  lemma {:induction false} DriftIsBounded(vs: seq<Validator>, k: nat, i: nat)
    requires Good(vs) && i < |vs|
    ensures var total, r := TotalPower(vs), Rescalings(vs, k);
            -5 * r * total <= Drift(vs, k, i) <= 4 * r * total
  {
    hide Good, TotalPower, CallRescales, DriftOfCall;
    if k > 1 {
      DriftIsBounded(vs, k - 1, i);
      DriftNeedsRescaling(vs, k - 1, i);
      Distribute(5 * Rescalings(vs, k - 1), 5, TotalPower(vs));
      Distribute(4 * Rescalings(vs, k - 1), 4, TotalPower(vs));
    }
  }

  /** The account of entry i after k calls: its levelled start, plus what it gained, minus what
      it paid, plus the drift. */
  lemma {:induction false} LedgerOfCalls(vs: seq<Validator>, k: nat, i: nat)
    requires Good(vs) && i < |vs| && k > 0
    ensures |Called(vs, k)| == |vs|
    ensures Called(vs, k)[i].priority
         == Normalised(vs)[i].priority + k * vs[i].power - Served(vs, k, i) * TotalPower(vs) + Drift(vs, k, i)
  {
    hide Good, Step, Normalised, Called, ProposerOfCall, TotalPower;
    var total, w := TotalPower(vs), vs[i].power;
    CalledStep(vs, k);
    CalledKeeps(vs, k - 1);
    CallOnAccount(vs, k - 1, i);
    Distribute(Served(vs, k - 1, i), 1, total);
    Distribute(k - 1, 1, w);
    if k > 1 {
      LedgerOfCalls(vs, k - 1, i);
    }
  }

  /** By how much the services of entry i exceed its share of k calls, times the total power. */
  ghost function Excess(vs: seq<Validator>, k: nat, i: nat): int
    requires Good(vs) && i < |vs|
  {
    Served(vs, k, i) * TotalPower(vs) - k * vs[i].power
  }

  lemma NoDriftAtFirst(vs: seq<Validator>, i: nat)
    requires Good(vs) && i < |vs|
    ensures Drift(vs, 0, i) == 0
  {
  }

  /** Up to a constant, the excess is the drift ... */
  lemma ExcessIsDrift(vs: seq<Validator>, k: nat, i: nat)
    requires Good(vs) && i < |vs|
    ensures Drift(vs, k, i) - 5 * TotalPower(vs) <= Excess(vs, k, i) <= Drift(vs, k, i) + 4 * TotalPower(vs)
  {
    hide Good, Step, Normalised, Called, ProposerOfCall, TotalPower, Drift;
    NoDriftAtFirst(vs, i);
    CallOnAccount(vs, 0, i);
    CalledStep(vs, 0);
    if k > 0 {
      LedgerOfCalls(vs, k, i);
      CallOnAccount(vs, k - 1, i);
    }
  }

  /** ... so over any number of successive calls every validator proposes in proportion to its
      power, up to a constant and a constant for every later call that rescales. */
  lemma CallsAreFair(vs: seq<Validator>, k: nat, i: nat)
    requires Good(vs) && i < |vs|
    ensures var total, w, c, r := TotalPower(vs), vs[i].power, Served(vs, k, i), Rescalings(vs, k);
            k * w - (5 + 5 * r) * total <= c * total <= k * w + (4 + 4 * r) * total
  {
    hide Served, Rescalings, Drift, Good, TotalPower;
    ExcessIsDrift(vs, k, i);
    DriftIsBounded(vs, k, i);
    Distribute(5, 5 * Rescalings(vs, k), TotalPower(vs));
    Distribute(4, 4 * Rescalings(vs, k), TotalPower(vs));
  }

  ghost predicate ExcessWithin(vs: seq<Validator>, i: nat, bound: nat)
    requires Good(vs) && i < |vs|
  {
    forall k: nat :: -(bound as int) <= Excess(vs, k, i) <= bound
  }

  ghost predicate DriftWithin(vs: seq<Validator>, i: nat, bound: nat)
    requires Good(vs) && i < |vs|
  {
    forall k: nat :: -(bound as int) <= Drift(vs, k, i) <= bound
  }

  /** Over all runs of calls: the services stay within a constant of the share if and only if what
      rescaling adds up to stays within a constant. */
  lemma FairIffDriftIsBounded(vs: seq<Validator>, i: nat, bound: nat)
    requires Good(vs) && i < |vs|
    ensures TotalPower(vs) > 0
    ensures DriftWithin(vs, i, bound) ==> ExcessWithin(vs, i, bound + 5 * TotalPower(vs))
    ensures ExcessWithin(vs, i, bound) ==> DriftWithin(vs, i, bound + 5 * TotalPower(vs))
  {
    hide Drift, Excess, TotalPower;
    TotalIsPositive(vs);
    forall k: nat
      ensures var d, e, p := Drift(vs, k, i), Excess(vs, k, i), TotalPower(vs); d - 5 * p <= e <= d + 4 * p
    {
      ExcessIsDrift(vs, k, i);
    }
  }

  /** Everybody proposes within a number of calls that is bounded while the rescalings are. */
  lemma EverybodyIsServed(vs: seq<Validator>, k: nat, i: nat)
    requires Good(vs) && i < |vs|
    requires k * vs[i].power > (5 + 5 * Rescalings(vs, k)) * TotalPower(vs)
    ensures Served(vs, k, i) >= 1
  {
    hide Served, Rescalings, Good, TotalPower;
    CallsAreFair(vs, k, i);
  }

  // ---------------------------------------------------------------- lists that come back

  /** Calls change priorities only. */
  lemma {:induction false} CalledParts(vs: seq<Validator>, k: nat)
    requires Good(vs) && vs != []
    ensures |Called(vs, k)| == |vs| && Called(vs, k) == WithPriorities(vs, PrioritiesOf(Called(vs, k)))
  {
    hide Good, Called, Centred, Rescaled, ClippedTurns;
    CalledStep(vs, k);
    if k > 0 {
      var before := Called(vs, k - 1);
      CalledParts(vs, k - 1);
      GoodIsLevelled(before);
      RotatedParts(Normalised(before), 1);
      PrioritiesOfNormalised(before);
    }
  }

  lemma {:induction false} CallsCompose(vs: seq<Validator>, m: nat, k: nat, i: nat)
    requires Good(vs) && vs != []
    ensures |Called(vs, m)| == |vs|
    ensures Called(vs, m + k) == Called(Called(vs, m), k)
    ensures Served(vs, m + k, i) == Served(vs, m, i) + Served(Called(vs, m), k, i)
  {
    hide Good, Step, Called, Normalised, Proposer;
    CalledKeeps(vs, m);
    CalledStep(vs, m + k);
    CalledStep(Called(vs, m), k);
    if k > 0 {
      CallsCompose(vs, m, k - 1, i);
    }
  }

  lemma ExcessComposes(vs: seq<Validator>, m: nat, k: nat, i: nat)
    requires Good(vs) && i < |vs|
    ensures |Called(vs, m)| == |vs|
    ensures Excess(vs, m + k, i) == Excess(vs, m, i) + Excess(Called(vs, m), k, i)
  {
    hide Good, Called, Served, TotalPower;
    CallsCompose(vs, m, k, i);
    CalledKeeps(vs, m);
    var total, power := TotalPower(vs), vs[i].power;
    assert PowersIn(Called(vs, m))[i] == PowersIn(vs)[i] == power;
    Distribute(Served(vs, m, i), Served(Called(vs, m), k, i), total);
    Distribute(m, k, power);
  }

  lemma NothingServed(vs: seq<Validator>, i: nat)
    requires Good(vs) && vs != []
    ensures Served(vs, 0, i) == 0
  {
  }

  lemma ScaledExcess(m: nat, n: nat, served: nat, total: int, power: int)
    ensures (m * served) * total - (m * n) * power == m * (served * total - n * power)
  {
    assert (m * served) * total == m * (served * total);
    assert (m * n) * power == m * (n * power);
    Distribute(served * total, -(n * power), m);
  }

  /** What n calls bring back, m times n calls bring back, with the same services each time. */
  lemma {:induction false} PeriodRepeats(vs: seq<Validator>, n: nat, m: nat, k: nat, i: nat)
    requires Good(vs) && i < |vs| && Called(vs, n) == vs && k == m * n
    ensures Called(vs, k) == vs
    ensures Served(vs, k, i) == m * Served(vs, n, i)
    ensures Excess(vs, k, i) == m * Excess(vs, n, i)
    decreases m
  {
    hide Good, Step, Called, Served, TotalPower;
    CalledStep(vs, 0);
    NothingServed(vs, i);
    if m > 0 {
      Distribute(m - 1, 1, n);
      ProductSign(m - 1, n);
      PeriodRepeats(vs, n, m - 1, k - n, i);
      CallsCompose(vs, k - n, n, i);
      Distribute(m - 1, 1, Served(vs, n, i));
    }
    ScaledExcess(m, n, Served(vs, n, i), TotalPower(vs), vs[i].power);
  }

  // ---------------------------------------------------------------- calls that do not rescale

  lemma NoRescalingsBefore(vs: seq<Validator>, k: nat)
    requires Good(vs) && vs != [] && k > 0 && Rescalings(vs, k) == 0
    ensures Rescalings(vs, k - 1) == 0
    ensures k > 1 ==> Normalised(Called(vs, k - 1)) == Called(vs, k - 1)
  {
    hide Good, Step, Normalised, Called, Spread;
    if k > 1 {
      LaterCallRescalesIff(vs, k - 1);
    }
  }

  /** While no later call rescales, k calls are k exact rounds from the levelled start, and the
      proposers are the winners of these rounds. */
  lemma {:induction false} CallsAreTurns(vs: seq<Validator>, k: nat, i: nat)
    requires Good(vs) && vs != [] && Rescalings(vs, k) == 0
    ensures var ps, ws, total := PrioritiesOf(Normalised(vs)), PowersIn(vs), TotalPower(vs);
            && (k > 0 ==> PrioritiesOf(Called(vs, k)) == Turns(ps, ws, total, k))
            && Served(vs, k, i) == Wins(ps, ws, total, k, i)
  {
    hide Good, Step, Normalised, Called, Winner, Turn, Rescalings, Levelled, PowersOf;
    CalledStep(vs, k);
    if k > 0 {
      NoRescalingsBefore(vs, k);
      CallsAreTurns(vs, k - 1, i);
      CalledKeeps(vs, k - 1);
      CallIsTurn(Called(vs, k - 1));
    }
  }

  lemma RotatedNot(vs: seq<Validator>)
    requires Rotatable(vs)
    ensures Rotated(vs, 0) == vs
  {
  }

  /** Then k calls leave the same list as one call IncrementProposerPriority(k). */
  lemma {:induction false} CallsAreOneCall(vs: seq<Validator>, k: nat)
    requires Good(vs) && vs != [] && k > 0 && Rescalings(vs, k) == 0
    ensures Rotatable(Normalised(vs)) && Called(vs, k) == Rotated(Normalised(vs), k)
  {
    hide Good, Normalised, Called, Rescalings, Rotated, Rotatable;
    CalledStep(vs, k);
    NoRescalingsBefore(vs, k);
    GoodIsLevelled(vs);
    if k == 1 {
      CalledStep(vs, 0);
    } else {
      var now := Called(vs, k - 1);
      CallsAreOneCall(vs, k - 1);
      CalledKeeps(vs, k - 1);
      GoodIsLevelled(now);
      RotatedNot(now);
      RotatedStep(now, 0);
      RotatedKeeps(Normalised(vs), k - 1);
      RotatedStep(Normalised(vs), k - 1);
    }
  }

  lemma SpreadOfNormalised(vs: seq<Validator>)
    requires Good(vs) && vs != []
    ensures Spread(PrioritiesOf(Normalised(vs))) <= 2 * TotalPower(vs)
  {
    hide Rescaled, Centred, Spread;
    var ps := PrioritiesOf(vs);
    TotalIsPositive(vs);
    PrioritiesOfNormalised(vs);
    RescaledSpread(ps, 2 * TotalPower(vs));
    SpreadOfCentred(Rescaled(ps, 2 * TotalPower(vs)));
  }

  lemma SumOfTwo(s: seq<int>)
    requires |s| == 2
    ensures Sum(s) == s[0] + s[1]
  {
    assert Sum(s[..1]) == Sum(s[..1][..0]) + s[0];
  }

  lemma SpreadOfTwo(s: seq<int>, d: int)
    requires |s| == 2
    ensures Spread(s) <= d <==> s[0] - s[1] <= d && s[1] - s[0] <= d
  {
    hide MaxOf, MinOf;
    var i :| 0 <= i < 2 && s[i] == MaxOf(s);
    var j :| 0 <= j < 2 && s[j] == MinOf(s);
  }

  lemma TurnOfTwo(ps: seq<int>, ws: seq<int>, total: int)
    requires |ps| == |ws| == 2 && PowersOf(ws, total) && Spread(ps) <= 2 * total
    ensures Spread(Turn(ps, ws, total)) <= 2 * total
  {
    hide Sum, Spread;
    var k := Winner(ps, ws);
    var next := Turn(ps, ws, total);
    SumOfTwo(ws);
    SpreadOfTwo(ps, 2 * total);
    assert Raised(ps, ws)[1 - k] <= Raised(ps, ws)[k];
    assert ps[1 - k] + ws[1 - k] <= ps[k] + ws[k];
    assert next[k] == ps[k] + ws[k] - total && next[1 - k] == ps[1 - k] + ws[1 - k];
    SpreadOfTwo(next, 2 * total);
  }

  /** Two validators never come more than 2P apart again. */
  lemma TwoNeverRescale(vs: seq<Validator>, k: nat)
    requires Good(vs) && |vs| == 2 && k > 0
    ensures |Called(vs, k)| == 2 && !Rescales(Called(vs, k))
  {
    hide Good, Step, Normalised, Called, Turn, Winner, Spread, PowersOf, Levelled;
    var now := Called(vs, k - 1);
    CalledStep(vs, k);
    CalledKeeps(vs, k - 1);
    CallIsTurn(now);
    SpreadOfNormalised(now);
    TurnOfTwo(PrioritiesOf(Normalised(now)), PowersIn(now), TotalPower(now));
  }

  /** Three can: two heavy members pay in turn while the light one stays far behind. */
  const TWO_ABOVE_ONE: seq<Validator> := [
    Validator(1, 0, 0, 4, 0, 1, false, 6),
    Validator(2, 0, 0, 4, 0, 2, false, 6),
    Validator(3, 0, 0, 1, 0, 3, false, -12)]

  lemma SumOfThree(a: int, b: int, c: int)
    ensures Sum([a, b, c]) == a + b + c
  {
    assert [a, b, c][..2] == [a, b];
    assert [a, b][..1] == [a];
    assert Sum([a]) == a;
  }

  lemma SpreadOfThree(s: seq<int>, high: int, low: int)
    requires |s| == 3 && high in s && low in s && forall i :: 0 <= i < 3 ==> low <= s[i] <= high
    ensures Spread(s) == high - low
  {
    hide MaxOf, MinOf;
  }

  lemma TwoAboveOne()
    ensures Good(TWO_ABOVE_ONE) && TotalPower(TWO_ABOVE_ONE) == 9
    ensures PrioritiesOf(TWO_ABOVE_ONE) == [6, 6, -12] && PowersIn(TWO_ABOVE_ONE) == [4, 4, 1]
    ensures Sum([6, 6, -12]) == 0 && Spread([6, 6, -12]) == 18 && Spread([1, 10, -11]) == 21
  {
    hide Spread, Sum;
    assert PowersIn(TWO_ABOVE_ONE) == [4, 4, 1];
    TotalPowerIsSum(TWO_ABOVE_ONE);
    SumOfThree(4, 4, 1);
    SumOfThree(6, 6, -12);
    assert [6, 6, -12][0] == 6 && [6, 6, -12][2] == -12;
    SpreadOfThree([6, 6, -12], 6, -12);
    assert [1, 10, -11][1] == 10 && [1, 10, -11][2] == -11;
    SpreadOfThree([1, 10, -11], 10, -11);
  }

  lemma TurnOfThree()
    ensures Turn([6, 6, -12], [4, 4, 1], 9) == [1, 10, -11]
  {
    assert Raised([6, 6, -12], [4, 4, 1]) == [10, 10, -11];
    assert Leads([10, 10, -11], 0);
    LeaderIsUnique([10, 10, -11], 0);
  }

  /** The light one is 2P below the heavy ones; after one call it is more than that below. */
  lemma LaterRescale()
    ensures Good(TWO_ABOVE_ONE) && !Rescales(TWO_ABOVE_ONE)
    ensures |Called(TWO_ABOVE_ONE, 1)| == 3 && Rescales(Called(TWO_ABOVE_ONE, 1))
    ensures Rescalings(TWO_ABOVE_ONE, 2) == 1
  {
    hide Good, Step, Normalised, Called, Turn, Winner, Spread, Sum, PowersOf, Levelled, TotalPower;
    var vs := TWO_ABOVE_ONE;
    TwoAboveOne();
    CalledStep(vs, 0);
    CalledStep(vs, 1);
    CallIsTurn(vs);
    PrioritiesOfNormalised(vs);
    LevellingIsIdentityIff([6, 6, -12], 18);
    TurnOfThree();
    assert Rescalings(vs, 2) == Rescalings(vs, 1) + if Rescales(Called(vs, 1)) then 1 else 0;
  }
}
