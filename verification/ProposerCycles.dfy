/** Exactly when the rotation is fair for ever (types/validator-set.go). The priorities of a fixed
    set of members come back sooner or later; whoever has its share of the calls of one such cycle
    has it for ever, up to a constant, and nobody else does. */
module ProposerCycles {
  import opened GoInt
  import opened MapSums
  import opened Sums
  import opened Priorities
  import opened Validators
  import opened ChangeSets
  import opened ValidatorSets
  import opened ProposerRuns
  import opened ProposerCalls

  // ---------------------------------------------------------------- the condition

  /** The services of entry i stay within some constant of its share, over any number of calls. */
  ghost predicate FairForEver(vs: seq<Validator>, i: nat)
    requires Good(vs) && i < |vs|
  {
    exists bound: nat :: ExcessWithin(vs, i, bound)
  }

  /** The list after m calls comes back n calls later. */
  ghost predicate ComesBack(vs: seq<Validator>, m: nat, n: nat)
    requires Good(vs)
  {
    n > 0 && Called(vs, m + n) == Called(vs, m)
  }

  /** By how much the services of entry i in the cycle exceed its share of it. */
  ghost function CycleExcess(vs: seq<Validator>, m: nat, n: nat, i: nat): int
    requires Good(vs) && i < |vs|
  {
    CalledKeeps(vs, m);
    Excess(Called(vs, m), n, i)
  }

  lemma {:induction false} ServedAtMost(vs: seq<Validator>, k: nat, i: nat)
    requires Good(vs) && vs != []
    ensures Served(vs, k, i) <= k
  {
    hide Good, ProposerOfCall;
    if k > 0 {
      ServedAtMost(vs, k - 1, i);
    }
  }

  lemma GoodPowers(vs: seq<Validator>, i: nat)
    requires Good(vs) && i < |vs|
    ensures 0 < vs[i].power <= TotalPower(vs)
  {
    PowersAreInt64(vs);
    PowersWithinTotal(PowersIn(vs), TotalPower(vs));
    assert PowersIn(vs)[i] == vs[i].power;
  }

  /** Within k calls the excess is at most k times the total power. */
  lemma ExcessAtMost(vs: seq<Validator>, k: nat, i: nat)
    requires Good(vs) && i < |vs|
    ensures TotalPower(vs) > 0 && -(k * TotalPower(vs)) <= Excess(vs, k, i) <= k * TotalPower(vs)
  {
    hide Good, Served, Called, TotalPower;
    var total := TotalPower(vs);
    GoodPowers(vs, i);
    ServedAtMost(vs, k, i);
    ProductOrdered(Served(vs, k, i), k, total);
    ProductOrdered(vs[i].power, total, k);
    ProductSign(k, vs[i].power);
    ProductSign(Served(vs, k, i), total);
  }

  lemma CycleParts(vs: seq<Validator>, m: nat, n: nat, i: nat)
    requires Good(vs) && i < |vs| && ComesBack(vs, m, n)
    ensures n > 0 && |Called(vs, m)| == |vs| && Called(Called(vs, m), n) == Called(vs, m)
    ensures TotalPower(Called(vs, m)) == TotalPower(vs)
    ensures CycleExcess(vs, m, n, i) == Excess(Called(vs, m), n, i)
  {
    hide Good, Called, Excess, TotalPower;
    CalledKeeps(vs, m);
    CallsCompose(vs, m, n, i);
  }

  lemma ExcessInParts(vs: seq<Validator>, m: nat, k: nat, r: nat, i: nat)
    requires Good(vs) && i < |vs| && Called(Called(vs, m), k) == Called(vs, m)
    ensures |Called(vs, m)| == |vs|
    ensures Excess(vs, m + (k + r), i) == Excess(vs, m, i) + Excess(Called(vs, m), k, i) + Excess(Called(vs, m), r, i)
  {
    hide Good, Called, Excess, TotalPower;
    CalledKeeps(vs, m);
    ExcessComposes(vs, m, k + r, i);
    ExcessComposes(Called(vs, m), k, r, i);
  }

  /** q cycles add q times the excess of one. */
  lemma ExcessOfCycles(vs: seq<Validator>, m: nat, n: nat, q: nat, k: nat, r: nat, i: nat)
    requires Good(vs) && i < |vs| && ComesBack(vs, m, n) && k == q * n
    ensures |Called(vs, m)| == |vs|
    ensures Excess(vs, m + (k + r), i) == Excess(vs, m, i) + q * CycleExcess(vs, m, n, i) + Excess(Called(vs, m), r, i)
  {
    hide Good, Called, Excess, CycleExcess, ComesBack, TotalPower, Served;
    CycleParts(vs, m, n, i);
    PeriodRepeats(Called(vs, m), n, q, k, i);
    ExcessInParts(vs, m, k, r, i);
  }

  lemma QuotientAndRest(k: nat, n: nat)
    requires n > 0
    ensures (k / n) * n >= 0 && k == (k / n) * n + k % n && 0 <= k % n < n
  {
    ProductSign(n, k / n);
  }

  lemma BalancedAt(vs: seq<Validator>, m: nat, n: nat, i: nat, k: nat, bound: nat)
    requires Good(vs) && i < |vs| && ComesBack(vs, m, n) && CycleExcess(vs, m, n, i) == 0
    requires bound == (m + n) * TotalPower(vs)
    ensures -(bound as int) <= Excess(vs, k, i) <= bound
  {
    hide Good, Called, Excess, CycleExcess, TotalPower, ComesBack;
    CycleParts(vs, m, n, i);
    ExcessAtMost(vs, m, i);
    if k <= m {
      ExcessAtMost(vs, k, i);
      ProductOrdered(k, m + n, TotalPower(vs));
    } else {
      var q, r := (k - m) / n, (k - m) % n;
      QuotientAndRest(k - m, n);
      ExcessOfCycles(vs, m, n, q, q * n, r, i);
      ExcessAtMost(Called(vs, m), r, i);
      Distribute(m, r, TotalPower(vs));
      ProductOrdered(m + r, m + n, TotalPower(vs));
    }
  }

  /** If the cycle is balanced, m + n calls bound the excess for ever. */
  lemma BalancedIsFair(vs: seq<Validator>, m: nat, n: nat, i: nat, bound: nat)
    requires Good(vs) && i < |vs| && ComesBack(vs, m, n) && CycleExcess(vs, m, n, i) == 0
    requires bound == (m + n) * TotalPower(vs)
    ensures ExcessWithin(vs, i, bound)
  {
    hide Good, Called, Excess, CycleExcess, TotalPower, ComesBack;
    forall k: nat
      ensures -(bound as int) <= Excess(vs, k, i) <= bound
    {
      BalancedAt(vs, m, n, i, k, bound);
    }
  }

  lemma NoExcessYet(vs: seq<Validator>, i: nat)
    requires Good(vs) && i < |vs|
    ensures Excess(vs, 0, i) == 0
  {
    hide Good, TotalPower;
    NothingServed(vs, i);
  }

  /** If it is not, 2b + 1 cycles leave every bound b behind. */
  lemma UnbalancedIsUnfair(vs: seq<Validator>, m: nat, n: nat, i: nat, bound: nat)
    requires Good(vs) && i < |vs| && ComesBack(vs, m, n) && CycleExcess(vs, m, n, i) != 0
    ensures !ExcessWithin(vs, i, bound)
  {
    hide Good, Called, Excess, CycleExcess, TotalPower, ComesBack;
    var q := 2 * bound + 1;
    CycleParts(vs, m, n, i);
    ProductSign(n, q);
    ExcessOfCycles(vs, m, n, q, q * n, 0, i);
    NoExcessYet(Called(vs, m), i);
    MulBound(q, CycleExcess(vs, m, n, i));
    var before, after := Excess(vs, m, i), Excess(vs, m + (q * n + 0), i);
    assert after - before > 2 * bound || before - after > 2 * bound;
  }

  lemma TotalIsNotNegative(vs: seq<Validator>, i: nat)
    requires Good(vs) && i < |vs|
    ensures TotalPower(vs) >= 0
  {
    GoodPowers(vs, i);
  }

  /** The exact condition: a validator is served fairly for ever if and only if it has exactly its
      share of the calls of one cycle, whichever cycle is looked at. */
  lemma FairIffCycleIsBalanced(vs: seq<Validator>, m: nat, n: nat, i: nat)
    requires Good(vs) && i < |vs| && ComesBack(vs, m, n)
    ensures FairForEver(vs, i) <==> CycleExcess(vs, m, n, i) == 0
  {
    hide Good, Called, Excess, CycleExcess, TotalPower, ExcessWithin, ComesBack;
    if CycleExcess(vs, m, n, i) == 0 {
      TotalIsNotNegative(vs, i);
      ProductSign(m + n, TotalPower(vs));
      BalancedIsFair(vs, m, n, i, (m + n) * TotalPower(vs));
    } else {
      forall bound: nat
        ensures !ExcessWithin(vs, i, bound)
      {
        UnbalancedIsUnfair(vs, m, n, i, bound);
      }
    }
  }

  // ---------------------------------------------------------------- every list comes back

  /** How many lists of n numbers there are when each can have `base` values. */
  function Lists(base: nat, n: nat): nat {
    if n == 0 then 1 else Lists(base, n - 1) * base
  }

  /** The number of a list among those with entries from `low` up to below low + base. */
  function Code(ps: seq<int>, low: int, base: nat): int {
    if ps == [] then 0 else Code(ps[..|ps| - 1], low, base) * base + (ps[|ps| - 1] - low)
  }

  predicate Ranging(ps: seq<int>, low: int, base: nat) {
    forall i :: 0 <= i < |ps| ==> low <= ps[i] < low + base
  }

  lemma {:induction false} CodeBelow(ps: seq<int>, low: int, base: nat)
    requires Ranging(ps, low, base)
    ensures 0 <= Code(ps, low, base) < Lists(base, |ps|)
  {
    if ps != [] {
      var n := |ps| - 1;
      var before := Code(ps[..n], low, base);
      CodeBelow(ps[..n], low, base);
      ProductSign(base, before);
      ProductOrdered(before + 1, Lists(base, n), base);
      Distribute(before, 1, base);
    }
  }

  lemma DigitsFromSum(a: int, x: nat, b: int, y: nat, base: nat)
    requires x < base && y < base && a * base + x == b * base + y
    ensures a == b && x == y
  {
    DivModFromParts(a * base + x, a, base, x);
    DivModFromParts(a * base + x, b, base, y);
  }

  lemma {:induction false} CodeIsInjective(ps: seq<int>, qs: seq<int>, low: int, base: nat)
    requires |ps| == |qs| && Ranging(ps, low, base) && Ranging(qs, low, base)
    requires Code(ps, low, base) == Code(qs, low, base)
    ensures ps == qs
  {
    if ps != [] {
      var n := |ps| - 1;
      DigitsFromSum(Code(ps[..n], low, base), ps[n] - low, Code(qs[..n], low, base), qs[n] - low, base);
      CodeIsInjective(ps[..n], qs[..n], low, base);
      assert ps == ps[..n] + [ps[n]] && qs == qs[..n] + [qs[n]];
    }
  }

  function Below(n: nat): (r: set<nat>)
    ensures |r| == n && forall k: nat :: k in r <==> k < n
  {
    if n == 0 then {} else Below(n - 1) + {n - 1}
  }

  function Elements(s: seq<nat>): (r: set<nat>)
    ensures forall x :: x in r <==> x in s
  {
    if s == [] then {} else Elements(s[..|s| - 1]) + {s[|s| - 1]}
  }

  lemma {:induction false} DistinctSize(s: seq<nat>)
    requires forall i, j :: 0 <= i < j < |s| ==> s[i] != s[j]
    ensures |Elements(s)| == |s|
  {
    if s != [] {
      DistinctSize(s[..|s| - 1]);
    }
  }

  /** More numbers below n than n: two are equal. */
  lemma TwoAreEqual(s: seq<nat>, n: nat)
    requires |s| > n && forall k :: 0 <= k < |s| ==> s[k] < n
    ensures exists i, j :: 0 <= i < j < |s| && s[i] == s[j]
  {
    hide Elements, Below;
    if forall i, j :: 0 <= i < j < |s| ==> s[i] != s[j] {
      DistinctSize(s);
      SubsetSize(Elements(s), Below(n));
    }
  }

  lemma CalledRanges(vs: seq<Validator>, k: nat)
    requires Good(vs) && vs != [] && k > 0
    ensures |Called(vs, k)| == |vs| && TotalPower(vs) > 0
    ensures Ranging(PrioritiesOf(Called(vs, k)), -2 * TotalPower(vs), 5 * TotalPower(vs) + 1)
  {
    hide Good, Called, TotalPower, ProposerOfCall, Normalised;
    CalledKeeps(vs, k);
    GoodPowers(vs, 0);
    forall i | 0 <= i < |vs|
      ensures -2 * TotalPower(vs) <= PrioritiesOf(Called(vs, k))[i] <= 3 * TotalPower(vs)
    {
      CallOnAccount(vs, k - 1, i);
    }
  }

  /** After that many calls every list has come back. */
  ghost function Horizon(vs: seq<Validator>): nat
    requires Good(vs)
  {
    TotalIsPositive(vs);
    Lists(5 * TotalPower(vs) + 1, |vs|) + 1
  }

  /** The numbers of the first `count` lists. */
  lemma Codes(vs: seq<Validator>, low: int, base: nat, count: nat) returns (codes: seq<nat>)
    requires Good(vs) && vs != [] && low == -2 * TotalPower(vs) && base == 5 * TotalPower(vs) + 1
    ensures |codes| == count
    ensures forall k :: 0 <= k < count ==> codes[k] == Code(PrioritiesOf(Called(vs, k + 1)), low, base)
    ensures forall k :: 0 <= k < count ==> codes[k] < Lists(base, |vs|)
  {
    hide Good, Called, TotalPower, Lists, Code;
    codes := [];
    while |codes| < count
      invariant |codes| <= count
      invariant forall k :: 0 <= k < |codes| ==> codes[k] == Code(PrioritiesOf(Called(vs, k + 1)), low, base)
      invariant forall k :: 0 <= k < |codes| ==> codes[k] < Lists(base, |vs|)
    {
      var k := |codes|;
      CalledRanges(vs, k + 1);
      CodeBelow(PrioritiesOf(Called(vs, k + 1)), low, base);
      codes := codes + [Code(PrioritiesOf(Called(vs, k + 1)), low, base)];
    }
  }

  /** After at most (5P + 1)^n + 1 calls the list has come back to one it was before: the priorities
      lie in [-2P, 3P], and calls change nothing else. */
  lemma ListComesBack(vs: seq<Validator>) returns (m: nat, n: nat)
    requires Good(vs) && vs != []
    ensures m > 0 && ComesBack(vs, m, n) && m + n <= Horizon(vs)
  {
    hide Good, Called, TotalPower, Lists, Code;
    GoodPowers(vs, 0);
    var low, base := -2 * TotalPower(vs), 5 * TotalPower(vs) + 1;
    var size := Lists(base, |vs|);
    var codes := Codes(vs, low, base, size + 1);
    TwoAreEqual(codes, size);
    var i, j :| 0 <= i < j < |codes| && codes[i] == codes[j];
    CalledRanges(vs, i + 1);
    CalledRanges(vs, j + 1);
    CodeIsInjective(PrioritiesOf(Called(vs, i + 1)), PrioritiesOf(Called(vs, j + 1)), low, base);
    CalledParts(vs, i + 1);
    CalledParts(vs, j + 1);
    m, n := i + 1, j - i;
    assert m + n == j + 1;
  }

  /** A cycle within that many calls in which entry i has exactly its share. */
  ghost predicate BalancedSoon(vs: seq<Validator>, i: nat)
    requires Good(vs) && i < |vs|
  {
    exists m: nat, n: nat :: ComesBack(vs, m, n) && m + n <= Horizon(vs) && CycleExcess(vs, m, n, i) == 0
  }

  /** So fairness for ever is decided by finitely many calls. */
  lemma FairnessIsDecided(vs: seq<Validator>, i: nat)
    requires Good(vs) && i < |vs|
    ensures FairForEver(vs, i) <==> BalancedSoon(vs, i)
  {
    hide Good, Called, TotalPower, Horizon, CycleExcess, FairForEver, ComesBack;
    var m, n := ListComesBack(vs);
    FairIffCycleIsBalanced(vs, m, n, i);
    if BalancedSoon(vs, i) {
      var m', n' :| ComesBack(vs, m', n') && CycleExcess(vs, m', n', i) == 0;
      FairIffCycleIsBalanced(vs, m', n', i);
    }
  }

  // ---------------------------------------------------------------- cycles and rescalings

  lemma ExcessFromLedger(vs: seq<Validator>, k: nat, i: nat)
    requires Good(vs) && i < |vs| && k > 0
    ensures |Called(vs, k)| == |vs|
    ensures Excess(vs, k, i) == Normalised(vs)[i].priority - Called(vs, k)[i].priority + Drift(vs, k, i)
  {
    hide Good, Called, TotalPower, Served, Drift, Normalised;
    LedgerOfCalls(vs, k, i);
  }

  /** The excess of a cycle is what rescaling adds in it. */
  lemma CycleExcessIsDrift(vs: seq<Validator>, m: nat, n: nat, i: nat)
    requires Good(vs) && i < |vs| && m > 0 && ComesBack(vs, m, n)
    ensures CycleExcess(vs, m, n, i) == Drift(vs, m + n, i) - Drift(vs, m, i)
  {
    hide Good, Called, Excess, Drift, CycleExcess, Normalised;
    CycleParts(vs, m, n, i);
    ExcessComposes(vs, m, n, i);
    ExcessFromLedger(vs, m, i);
    ExcessFromLedger(vs, m + n, i);
  }

  lemma DriftStep(vs: seq<Validator>, k: nat, i: nat)
    requires Good(vs) && i < |vs| && k > 0
    ensures Drift(vs, k + 1, i) == Drift(vs, k, i) + DriftOfCall(vs, k, i)
    ensures !CallRescales(vs, k) ==> DriftOfCall(vs, k, i) == 0
  {
    hide Good, DriftOfCall, CallRescales;
    DriftNeedsRescaling(vs, k, i);
  }

  lemma {:induction false} DriftStays(vs: seq<Validator>, m: nat, n: nat, i: nat)
    requires Good(vs) && i < |vs| && m > 0
    ensures Rescalings(vs, m) <= Rescalings(vs, m + n)
    ensures Rescalings(vs, m + n) == Rescalings(vs, m) ==> Drift(vs, m + n, i) == Drift(vs, m, i)
  {
    hide Good, Drift, Rescalings, CallRescales, DriftOfCall;
    if n > 0 {
      DriftStays(vs, m, n - 1, i);
      RescalingsStep(vs, m + n - 1);
      DriftStep(vs, m + n - 1, i);
    }
  }

  /** The one call that rescales. */
  lemma {:induction false} DriftOfTheOne(vs: seq<Validator>, m: nat, n: nat) returns (j: nat)
    requires Good(vs) && vs != [] && m > 0 && Rescalings(vs, m + n) == Rescalings(vs, m) + 1
    ensures j > 0 && CallRescales(vs, j)
    ensures forall i :: 0 <= i < |vs| ==> Drift(vs, m + n, i) - Drift(vs, m, i) == DriftOfCall(vs, j, i)
    decreases n
  {
    hide Good, Drift, Rescalings, CallRescales, DriftOfCall;
    var k := m + n - 1;
    RescalingsStep(vs, k);
    forall i | 0 <= i < |vs|
      ensures Drift(vs, k + 1, i) == Drift(vs, k, i) + DriftOfCall(vs, k, i)
      ensures !CallRescales(vs, k) ==> DriftOfCall(vs, k, i) == 0
      ensures CallRescales(vs, k) ==> Drift(vs, k, i) == Drift(vs, m, i)
    {
      DriftStep(vs, k, i);
      DriftStays(vs, m, n - 1, i);
    }
    if CallRescales(vs, k) {
      return k;
    }
    j := DriftOfTheOne(vs, m, n - 1);
  }

  /** A rescaling moves somebody's priority. */
  lemma RescalingMoves(vs: seq<Validator>, k: nat) returns (i: nat)
    requires Good(vs) && vs != [] && k > 0 && CallRescales(vs, k)
    ensures i < |vs| && DriftOfCall(vs, k, i) != 0
  {
    hide Good, Normalised, Rescales;
    var now := Called(vs, k);
    CalledKeeps(vs, k);
    LaterCallRescalesIff(vs, k);
    PrioritiesOfNormalised(now);
    i :| 0 <= i < |vs| && PrioritiesOf(Normalised(now))[i] != PrioritiesOf(now)[i];
  }

  /** Everybody is served fairly for ever if no call of the cycle rescales, and somebody is not if
      exactly one does. */
  lemma RescalingDecides(vs: seq<Validator>, m: nat, n: nat)
    requires Good(vs) && vs != [] && m > 0 && ComesBack(vs, m, n)
    ensures Rescalings(vs, m + n) == Rescalings(vs, m) ==> forall i :: 0 <= i < |vs| ==> FairForEver(vs, i)
    ensures Rescalings(vs, m + n) == Rescalings(vs, m) + 1 ==> exists i :: 0 <= i < |vs| && !FairForEver(vs, i)
  {
    hide Good, Drift, Rescalings, CallRescales, DriftOfCall, CycleExcess, FairForEver, ComesBack;
    forall i | 0 <= i < |vs|
      ensures FairForEver(vs, i) <==> Drift(vs, m + n, i) - Drift(vs, m, i) == 0
      ensures Rescalings(vs, m) <= Rescalings(vs, m + n)
      ensures Rescalings(vs, m + n) == Rescalings(vs, m) ==> Drift(vs, m + n, i) == Drift(vs, m, i)
    {
      FairIffCycleIsBalanced(vs, m, n, i);
      CycleExcessIsDrift(vs, m, n, i);
      DriftStays(vs, m, n, i);
    }
    if Rescalings(vs, m + n) == Rescalings(vs, m) + 1 {
      var j := DriftOfTheOne(vs, m, n);
      var i := RescalingMoves(vs, j);
      assert !FairForEver(vs, i);
    }
  }

  // ---------------------------------------------------------------- sets that are never rescaled

  ghost predicate NeverRescaled(vs: seq<Validator>)
    requires Good(vs) && vs != []
  {
    forall k: nat :: k > 0 ==> !CallRescales(vs, k)
  }

  lemma {:induction false} NoRescalings(vs: seq<Validator>, k: nat)
    requires Good(vs) && vs != [] && NeverRescaled(vs)
    ensures Rescalings(vs, k) == 0
  {
    hide Good, CallRescales;
    if k > 0 {
      NoRescalings(vs, k - 1);
    }
  }

  /** Then 5P bounds everybody's excess. */
  lemma NeverRescaledIsFair(vs: seq<Validator>, i: nat, bound: nat)
    requires Good(vs) && i < |vs| && NeverRescaled(vs) && bound == 5 * TotalPower(vs)
    ensures ExcessWithin(vs, i, bound) && FairForEver(vs, i)
  {
    hide Good, TotalPower, Served, NeverRescaled, Rescalings;
    forall k: nat
      ensures -(bound as int) <= Excess(vs, k, i) <= bound
    {
      NoRescalings(vs, k);
      CallsAreFair(vs, k, i);
    }
  }

  /** A round among equal powers lets the spread grow to P at most, or leaves it as it is. */
  lemma TurnOfEquals(ps: seq<int>, ws: seq<int>, total: int)
    requires |ps| == |ws| && ps != [] && total >= 0 && Spread(ps) <= 2 * total
    requires forall i :: 0 <= i < |ws| ==> ws[i] == ws[0]
    ensures Spread(Turn(ps, ws, total)) <= 2 * total
  {
    hide MaxOf, MinOf;
    var k, next := Winner(ps, ws), Turn(ps, ws, total);
    var a :| 0 <= a < |next| && next[a] == MaxOf(next);
    var b :| 0 <= b < |next| && next[b] == MinOf(next);
    assert Raised(ps, ws)[a] <= Raised(ps, ws)[k];
    assert ps[a] <= MaxOf(ps) && MinOf(ps) <= ps[b];
  }

  /** Validators of equal power are never rescaled. */
  lemma EqualPowersNeverRescale(vs: seq<Validator>)
    requires Good(vs) && vs != [] && forall i :: 0 <= i < |vs| ==> vs[i].power == vs[0].power
    ensures NeverRescaled(vs)
  {
    hide Good, Step, Normalised, Called, Turn, Winner, Spread, PowersOf, Levelled;
    forall k: nat | k > 0
      ensures !CallRescales(vs, k)
    {
      var now := Called(vs, k - 1);
      CalledStep(vs, k);
      CalledKeeps(vs, k - 1);
      CallIsTurn(now);
      SpreadOfNormalised(now);
      assert forall i :: 0 <= i < |vs| ==> PowersIn(vs)[i] == vs[i].power;
      TurnOfEquals(PrioritiesOf(Normalised(now)), PowersIn(now), TotalPower(now));
    }
  }

  /** Nor are two validators. */
  lemma TwoAreNeverRescaled(vs: seq<Validator>)
    requires Good(vs) && |vs| == 2
    ensures NeverRescaled(vs)
  {
    hide Good, Called, Rescales;
    forall k: nat | k > 0
      ensures !CallRescales(vs, k)
    {
      TwoNeverRescale(vs, k);
    }
  }

  // ---------------------------------------------------------------- small new sets

  /** Sum 0, and entries between -3/4 and 5/4 of the total. */
  predicate Tight(ps: seq<int>, total: int) {
    Sum(ps) == 0 && forall i :: 0 <= i < |ps| ==> -3 * total <= 4 * ps[i] <= 5 * total
  }

  /** Two entries are what the others leave of the sum. */
  lemma PairFromSum(s: seq<int>, a: nat, b: nat, low: int)
    requires a < |s| && b < |s| && a != b && forall i :: 0 <= i < |s| ==> low <= s[i]
    ensures s[a] + s[b] <= Sum(s) - (|s| - 2) * low
  {
    SumUpdate(s, a, low);
    EntryFromSum(s[a := low], b, low);
    Distribute(|s| - 2, 1, low);
  }

  /** The payer has at least a quarter of the total to pay from, so the floor holds; whoever does
      not pay is at most the total above the payer, so the ceiling holds too. */
  lemma TurnOfFew(ps: seq<int>, ws: seq<int>, total: nat)
    requires |ps| == |ws| && 1 <= |ps| <= 4 && PowersOf(ws, total) && Tight(ps, total)
    ensures Tight(Turn(ps, ws, total), total)
  {
    hide Sum;
    var k, up, next := Winner(ps, ws), Raised(ps, ws), Turn(ps, ws, total);
    TurnKeepsSum(ps, ws, total);
    SumOfSums(ps, ws, up);
    SumAtMost(up, up[k]);
    assert 4 * up[k] >= total by {
      WinnerIsPositive(ps, ws, total);
      ProductOrdered(|ps|, 4, up[k]);
    }
    PowersWithinTotal(ws, total);
    var f := 3 * total / 4;
    forall a | 0 <= a < |ps| && a != k
      ensures 4 * next[a] <= 5 * total
    {
      assert up[a] <= up[k];
      PairFromSum(next, a, k, -f);
      ProductOrdered(|ps| - 2, 2, f);
    }
  }

  lemma TightIsNarrow(ps: seq<int>, total: int)
    requires ps != [] && Tight(ps, total)
    ensures Spread(ps) <= 2 * total
  {
    hide Sum, MaxOf, MinOf;
  }

  lemma {:induction false} FewStayTight(vs: seq<Validator>, k: nat)
    requires Good(vs) && 1 <= |vs| <= 4 && Tight(PrioritiesOf(Normalised(vs)), TotalPower(vs))
    ensures |Called(vs, k)| == |vs| && Tight(PrioritiesOf(Normalised(Called(vs, k))), TotalPower(vs))
    ensures k > 0 ==> !CallRescales(vs, k)
  {
    hide Good, Step, Normalised, Called, Turn, Winner, Spread, Tight, Levelled;
    CalledStep(vs, k);
    CalledKeeps(vs, k);
    if k > 0 {
      var now := Called(vs, k - 1);
      FewStayTight(vs, k - 1);
      CalledKeeps(vs, k - 1);
      CallIsTurn(now);
      TurnOfFew(PrioritiesOf(Normalised(now)), PowersIn(now), TotalPower(now));
      TightIsNarrow(PrioritiesOf(Called(vs, k)), TotalPower(vs));
      LaterCallRescalesIff(vs, k);
    }
  }

  lemma EqualBecomeZero(ps: seq<int>, p: int, diffMax: nat)
    requires ps != [] && forall i :: 0 <= i < |ps| ==> ps[i] == p
    ensures forall i :: 0 <= i < |ps| ==> Centred(Rescaled(ps, diffMax))[i] == 0
  {
    hide Sum, MaxOf, MinOf;
    assert Spread(ps) == 0;
    assert Rescaled(ps, diffMax) == ps;
    SumAtMost(ps, p);
    SumAtLeast(ps, p);
    DivModFromParts(Sum(ps), p, |ps|, 0);
    assert Average(ps) == p;
  }

  lemma ZeroIsTight(ps: seq<int>, total: nat)
    requires forall i :: 0 <= i < |ps| ==> ps[i] == 0
    ensures Tight(ps, total)
  {
    hide Sum;
    SumAtMost(ps, 0);
    SumAtLeast(ps, 0);
  }

  lemma EqualAreTight(vs: seq<Validator>)
    requires Good(vs) && vs != [] && forall i :: 0 <= i < |vs| ==> vs[i].priority == vs[0].priority
    ensures Tight(PrioritiesOf(Normalised(vs)), TotalPower(vs))
  {
    hide Good, Centred, Rescaled, Tight, TotalPower;
    TotalIsNotNegative(vs, 0);
    PrioritiesOfNormalised(vs);
    EqualBecomeZero(PrioritiesOf(vs), vs[0].priority, 2 * TotalPower(vs));
    ZeroIsTight(PrioritiesOf(Normalised(vs)), TotalPower(vs));
  }

  /** A new set of up to four validators is never rescaled, whatever its powers. */
  lemma SmallNewSetsNeverRescale(vs: seq<Validator>)
    requires Good(vs) && 1 <= |vs| <= 4 && forall i :: 0 <= i < |vs| ==> vs[i].priority == vs[0].priority
    ensures NeverRescaled(vs)
  {
    hide Good, CallRescales, Normalised, Tight;
    EqualAreTight(vs);
    forall k: nat | k > 0
      ensures !CallRescales(vs, k)
    {
      FewStayTight(vs, k);
    }
  }
}
