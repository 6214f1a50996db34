/** Arithmetic of proposer priorities (types/validator-set.go): what rescaling, centring
    and weighted round-robin do to a list of priorities, on exact integers. */
module Priorities {
  import opened GoInt
  import opened Sums

  // ---------------------------------------------------------------- extremes

  function MaxOf(s: seq<int>): (m: int)
    requires s != []
    ensures m in s
    ensures forall i :: 0 <= i < |s| ==> s[i] <= m
  {
    var last := s[|s| - 1];
    if |s| == 1 then last else
      var m := MaxOf(s[..|s| - 1]);
      if last > m then last else m
  }

  function MinOf(s: seq<int>): (m: int)
    requires s != []
    ensures m in s
    ensures forall i :: 0 <= i < |s| ==> m <= s[i]
  {
    var last := s[|s| - 1];
    if |s| == 1 then last else
      var m := MinOf(s[..|s| - 1]);
      if last < m then last else m
  }

  function Spread(s: seq<int>): nat
    requires s != []
  {
    MaxOf(s) - MinOf(s)
  }

  // ---------------------------------------------------------------- rescaling

  function Ratio(diff: int, diffMax: int): int
    requires diffMax > 0
  {
    TruncDiv(diff + diffMax - 1, diffMax)
  }

  lemma RatioCovers(diff: int, diffMax: int)
    requires diff > diffMax > 0
    ensures Ratio(diff, diffMax) > 1
    ensures diff <= Ratio(diff, diffMax) * diffMax
  {
    var x := diff + diffMax - 1;
    MulBound(diffMax, x / diffMax - 1);
    DivOrdered(2 * diffMax, x, diffMax);
  }

  function Rescaled(ps: seq<int>, diffMax: int): (r: seq<int>)
    requires ps != []
    ensures |r| == |ps|
  {
    if diffMax <= 0 || Spread(ps) <= diffMax then ps
    else
      var ratio := Ratio(Spread(ps), diffMax);
      RatioCovers(Spread(ps), diffMax);
      seq(|ps|, i requires 0 <= i < |ps| => TruncDiv(ps[i], ratio))
  }

  lemma RatioIsSmallest(diff: int, diffMax: int)
    requires diff > diffMax > 0
    ensures (Ratio(diff, diffMax) - 1) * diffMax < diff
  {
    Remainder(diff + diffMax - 1, diffMax);
    Distribute(Ratio(diff, diffMax), -1, diffMax);
  }

  /** `ratio` is the smallest by which to divide a spread to bring it within diffMax. */
  predicate SmallestRatio(spread: int, diffMax: int, ratio: int) {
    ratio >= 1 && spread <= ratio * diffMax && (ratio > 1 ==> (ratio - 1) * diffMax < spread)
  }

  lemma RatioFits(spread: nat, diffMax: int)
    requires diffMax > 0
    ensures SmallestRatio(spread, diffMax, if spread <= diffMax then 1 else Ratio(spread, diffMax))
  {
    if spread > diffMax {
      RatioCovers(spread, diffMax);
      RatioIsSmallest(spread, diffMax);
    }
  }

  /** Each quotient is that of its entry, rounded toward zero. */
  predicate DividedBy(ps: seq<int>, ratio: int, qs: seq<int>) {
    |qs| == |ps| && forall i :: 0 <= i < |ps| ==> QuotientTowardZero(ps[i], ratio, qs[i])
  }

  lemma RescaledIsDivided(ps: seq<int>, diffMax: int, ratio: int)
    requires ps != [] && diffMax > 0
    requires ratio == if Spread(ps) <= diffMax then 1 else Ratio(Spread(ps), diffMax)
    ensures DividedBy(ps, ratio, Rescaled(ps, diffMax))
  {
    hide QuotientTowardZero, Spread;
    forall i | 0 <= i < |ps|
      ensures QuotientTowardZero(ps[i], ratio, Rescaled(ps, diffMax)[i])
    {
      WholeQuotient(ps[i]);
      if Spread(ps) > diffMax {
        RatioCovers(Spread(ps), diffMax);
        TruncDivIsQuotient(ps[i], ratio);
      }
    }
  }

  /** Rescaling divides every priority by the smallest ratio that will do, toward zero. */
  lemma RescaledBySmallestRatio(ps: seq<int>, diffMax: int)
    requires ps != [] && diffMax > 0
    ensures exists ratio ::
              SmallestRatio(Spread(ps), diffMax, ratio) && DividedBy(ps, ratio, Rescaled(ps, diffMax))
  {
    hide SmallestRatio, DividedBy, Spread, Rescaled;
    var ratio := if Spread(ps) <= diffMax then 1 else Ratio(Spread(ps), diffMax);
    RatioFits(Spread(ps), diffMax);
    RescaledIsDivided(ps, diffMax, ratio);
  }

  lemma DivideAfterShift(a: nat, b: nat, r: int, d: nat)
    requires r > 0 && a <= b + r * d
    ensures a / r <= b / r + d
  {
    var q := a / r - b / r - d;
    assert r * q == r * (a / r) - r * (b / r) - r * d;
    assert r * q <= b % r - a % r < r;
    if q > 0 {
      MulBound(r, q);
    }
  }

  lemma DivideSum(a: nat, b: nat, r: int, d: nat)
    requires r > 0 && a + b <= r * d
    ensures a / r + b / r <= d
  {
    var q := a / r + b / r - d;
    assert r * q == r * (a / r) + r * (b / r) - r * d;
    if q > 0 {
      MulBound(r, q);
    }
  }

  /** Truncating both ends of an interval of length at most r*d leaves length at most d. */
  lemma TruncDivShrinks(a: int, b: int, r: int, d: nat)
    requires r > 0 && b <= a <= b + r * d
    ensures TruncDiv(a, r) - TruncDiv(b, r) <= d
  {
    if b >= 0 {
      DivideAfterShift(a, b, r, d);
    } else if a <= 0 {
      DivideAfterShift(-b, -a, r, d);
    } else {
      DivideSum(a, -b, r, d);
    }
  }

  lemma TruncDivOrdered(a: int, b: int, r: int)
    requires r > 0 && b <= a
    ensures TruncDiv(b, r) <= TruncDiv(a, r)
  {
    if b >= 0 {
      DivOrdered(b, a, r);
    } else if a < 0 {
      DivOrdered(-a, -b, r);
    } else {
      DivOrdered(0, a, r);
      DivOrdered(0, -b, r);
    }
  }

  /** Whatever the priorities were, rescaling leaves them at most diffMax apart. */
  lemma RescaledSpread(ps: seq<int>, diffMax: int)
    requires ps != [] && diffMax > 0
    ensures Spread(Rescaled(ps, diffMax)) <= diffMax
  {
    if Spread(ps) > diffMax {
      var ratio := Ratio(Spread(ps), diffMax);
      RatioCovers(Spread(ps), diffMax);
      var r := Rescaled(ps, diffMax);
      var i :| 0 <= i < |r| && r[i] == MaxOf(r);
      var j :| 0 <= j < |r| && r[j] == MinOf(r);
      if ps[i] >= ps[j] {
        assert ps[i] - ps[j] <= Spread(ps) <= ratio * diffMax;
        TruncDivShrinks(ps[i], ps[j], ratio, diffMax);
      } else {
        TruncDivOrdered(ps[j], ps[i], ratio);
      }
    }
  }

  // ---------------------------------------------------------------- centring

  /** big.Int.Div by a positive divisor rounds down, as `/` does here. */
  function Average(ps: seq<int>): int
    requires ps != []
  {
    Sum(ps) / |ps|
  }

  function Centred(ps: seq<int>): (r: seq<int>)
    requires ps != []
    ensures |r| == |ps|
  {
    seq(|ps|, i requires 0 <= i < |ps| => ps[i] - Average(ps))
  }

  lemma AverageWithin(ps: seq<int>)
    requires ps != []
    ensures MinOf(ps) <= Average(ps) <= MaxOf(ps)
  {
    SumAtMost(ps, MaxOf(ps));
    SumAtLeast(ps, MinOf(ps));
    QuotientWithin(Sum(ps), |ps|, MinOf(ps), MaxOf(ps));
  }

  lemma SumOfCentred(ps: seq<int>)
    requires ps != []
    ensures Sum(Centred(ps)) == Sum(ps) % |ps|
  {
    SumShift(ps, Centred(ps), Average(ps));
    Remainder(Sum(ps), |ps|);
  }

  /** Centring a list of spread at most d leaves every entry in [-d, d] and a sum that is
      non-negative but smaller than the number of entries. */
  lemma CentredBounds(ps: seq<int>, d: int)
    requires ps != [] && Spread(ps) <= d
    ensures forall i :: 0 <= i < |ps| ==> -d <= Centred(ps)[i] <= d
    ensures 0 <= Sum(Centred(ps)) < |ps|
  {
    AverageWithin(ps);
    SumOfCentred(ps);
  }

  lemma SpreadOfCentred(ps: seq<int>)
    requires ps != []
    ensures Spread(Centred(ps)) == Spread(ps)
  {
    var c, avg := Centred(ps), Average(ps);
    var i :| 0 <= i < |ps| && ps[i] == MaxOf(ps);
    var j :| 0 <= j < |ps| && ps[j] == MinOf(ps);
    assert c[i] == MaxOf(ps) - avg && c[j] == MinOf(ps) - avg;
    var k :| 0 <= k < |c| && c[k] == MaxOf(c);
    var l :| 0 <= l < |c| && c[l] == MinOf(c);
  }

  /** Priorities whose sum is already that of a centred list are changed by rescaling and
      centring exactly when they are too far apart. */
  lemma LevellingIsIdentityIff(ps: seq<int>, diffMax: int)
    requires ps != [] && diffMax > 0 && 0 <= Sum(ps) < |ps|
    ensures Centred(Rescaled(ps, diffMax)) == ps <==> Spread(ps) <= diffMax
  {
    if Spread(ps) <= diffMax {
      assert Average(ps) == 0 by {
        DivModFromParts(Sum(ps), 0, |ps|, Sum(ps));
      }
      assert Centred(ps) == ps;
    } else {
      RescaledSpread(ps, diffMax);
      SpreadOfCentred(Rescaled(ps, diffMax));
    }
  }

  // ---------------------------------------------------------------- weighted round-robin

  /** Entry k has the highest priority and comes first among those that have it. Entries are
      in address order, so it is the one that wins the tie-break of CompareProposerPriority. */
  ghost predicate Leads(ps: seq<int>, k: nat) {
    && k < |ps|
    && (forall i :: 0 <= i < |ps| ==> ps[i] <= ps[k])
    && (forall i :: 0 <= i < k ==> ps[i] < ps[k])
  }

  lemma {:induction false} LeaderExists(ps: seq<int>)
    requires ps != []
    ensures exists k: nat :: Leads(ps, k)
  {
    var last := |ps| - 1;
    if last == 0 {
      assert Leads(ps, 0);
    } else {
      LeaderExists(ps[..last]);
      var k: nat :| Leads(ps[..last], k);
      assert forall i :: 0 <= i < last ==> ps[i] == ps[..last][i];
      assert Leads(ps, if ps[last] > ps[k] then last else k);
    }
  }

  ghost function Leader(ps: seq<int>): (k: nat)
    requires ps != []
    ensures Leads(ps, k)
  {
    LeaderExists(ps);
    var k: nat :| Leads(ps, k);
    k
  }

  lemma LeaderIsUnique(ps: seq<int>, k: nat)
    requires Leads(ps, k)
    ensures k == Leader(ps)
  {
    var m := Leader(ps);
    assert ps[k] <= ps[m] && ps[m] <= ps[k];
  }

  function Raised(ps: seq<int>, ws: seq<int>): (r: seq<int>)
    requires |ps| == |ws|
    ensures |r| == |ps|
  {
    seq(|ps|, i requires 0 <= i < |ps| => ps[i] + ws[i])
  }

  ghost function Winner(ps: seq<int>, ws: seq<int>): (k: nat)
    requires |ps| == |ws| && ps != []
    ensures k < |ps|
  {
    Leader(Raised(ps, ws))
  }

  /** One round: everybody gains its power, the leader pays the total. */
  ghost function Turn(ps: seq<int>, ws: seq<int>, total: int): (r: seq<int>)
    requires |ps| == |ws| && ps != []
    ensures |r| == |ps|
  {
    var k := Winner(ps, ws);
    seq(|ps|, i requires 0 <= i < |ps| => ps[i] + ws[i] - if i == k then total else 0)
  }

  ghost function Turns(ps: seq<int>, ws: seq<int>, total: int, times: nat): (r: seq<int>)
    requires |ps| == |ws| && ps != []
    ensures |r| == |ps|
  {
    if times == 0 then ps else Turn(Turns(ps, ws, total, times - 1), ws, total)
  }

  /** How many of the first `times` rounds entry i wins. */
  ghost function Wins(ps: seq<int>, ws: seq<int>, total: int, times: nat, i: nat): nat
    requires |ps| == |ws| && ps != []
  {
    if times == 0 then 0
    else Wins(ps, ws, total, times - 1, i) + if Winner(Turns(ps, ws, total, times - 1), ws) == i then 1 else 0
  }

  /** Powers of a validator set: all positive, `total` altogether. */
  predicate PowersOf(ws: seq<int>, total: int) {
    && (forall i :: 0 <= i < |ws| ==> ws[i] > 0)
    && Sum(ws) == total
  }

  predicate Floor(ps: seq<int>, low: int) {
    forall i :: 0 <= i < |ps| ==> low <= ps[i]
  }

  lemma PowersWithinTotal(ws: seq<int>, total: int)
    requires PowersOf(ws, total)
    ensures forall i :: 0 <= i < |ws| ==> ws[i] <= total
  {
    forall i | 0 <= i < |ws|
      ensures ws[i] <= total
    {
      EntryFromSum(ws, i, 0);
    }
  }

  /** Nobody wins with nothing. */
  lemma WinnerIsPositive(ps: seq<int>, ws: seq<int>, total: int)
    requires |ps| == |ws| && ps != [] && PowersOf(ws, total) && Sum(ps) >= 0
    ensures var k := Winner(ps, ws); ps[k] + ws[k] > 0
    ensures total > 0
  {
    var up := Raised(ps, ws);
    SumOfSums(ps, ws, up);
    SumAtLeast(ws, 1);
    SumAtMost(up, up[Leader(up)]);
    ProductSign(|ps|, up[Leader(up)]);
  }

  lemma SumAfterTurn(ps: seq<int>, ws: seq<int>, up: seq<int>, r: seq<int>, k: nat, total: int)
    requires |ps| == |ws| == |up| == |r| && k < |ps|
    requires forall i :: 0 <= i < |ps| ==> up[i] == ps[i] + ws[i]
    requires forall i :: 0 <= i < |ps| ==> r[i] == up[i] - if i == k then total else 0
    ensures Sum(r) == Sum(ps) + Sum(ws) - total
  {
    assert r == up[k := up[k] - total];
    assert Sum(r) == Sum(up) - total by {
      SumUpdate(up, k, up[k] - total);
    }
    SumOfSums(ps, ws, up);
  }

  lemma TurnKeepsSum(ps: seq<int>, ws: seq<int>, total: int)
    requires |ps| == |ws| && ps != [] && PowersOf(ws, total)
    ensures Sum(Turn(ps, ws, total)) == Sum(ps)
  {
    SumAfterTurn(ps, ws, Raised(ps, ws), Turn(ps, ws, total), Winner(ps, ws), total);
  }

  /** When the sum is not negative, a round lets nobody fall below -2P. */
  lemma TurnKeepsFloor(ps: seq<int>, ws: seq<int>, total: int)
    requires |ps| == |ws| && ps != [] && PowersOf(ws, total)
    requires Sum(ps) >= 0 && Floor(ps, -2 * total)
    ensures Floor(Turn(ps, ws, total), -2 * total)
  {
    WinnerIsPositive(ps, ws, total);
  }

  lemma {:induction false} TurnsKeep(ps: seq<int>, ws: seq<int>, total: int, times: nat)
    requires |ps| == |ws| && ps != [] && PowersOf(ws, total)
    requires Sum(ps) >= 0 && Floor(ps, -2 * total)
    ensures Sum(Turns(ps, ws, total, times)) == Sum(ps)
    ensures Floor(Turns(ps, ws, total, times), -2 * total)
  {
    if times > 0 {
      TurnsKeep(ps, ws, total, times - 1);
      TurnKeepsSum(Turns(ps, ws, total, times - 1), ws, total);
      TurnKeepsFloor(Turns(ps, ws, total, times - 1), ws, total);
    }
  }

  lemma LedgerStep(p: int, times: nat, w: int, c: nat, total: int)
    requires times > 0
    ensures p + times * w - c * total == (p + (times - 1) * w - c * total) + w
    ensures p + times * w - (c + 1) * total == (p + (times - 1) * w - c * total) + w - total
  {
    Distribute(c, 1, total);
    Distribute(times - 1, 1, w);
  }

  /** The account of every entry over any number of rounds. */
  lemma {:induction false} Ledger(ps: seq<int>, ws: seq<int>, total: int, times: nat, i: nat)
    requires |ps| == |ws| && ps != [] && i < |ps|
    ensures Turns(ps, ws, total, times)[i] == ps[i] + times * ws[i] - Wins(ps, ws, total, times, i) * total
  {
    if times > 0 {
      Ledger(ps, ws, total, times - 1, i);
      LedgerStep(ps[i], times, ws[i], Wins(ps, ws, total, times - 1, i), total);
    }
  }

  /** Priorities as a rescaled and centred list leaves them. */
  predicate Levelled(ps: seq<int>, total: int) {
    && 0 <= Sum(ps) < |ps|
    && forall i :: 0 <= i < |ps| ==> -2 * total <= ps[i] <= 2 * total
  }

  /** Nobody is served much more often than its share. */
  lemma NobodyIsFavoured(ps: seq<int>, ws: seq<int>, total: int, times: nat, i: nat)
    requires |ps| == |ws| && PowersOf(ws, total) && i < |ps| && Levelled(ps, total)
    ensures Wins(ps, ws, total, times, i) * total <= times * ws[i] + 4 * total
  {
    Ledger(ps, ws, total, times, i);
    TurnsKeep(ps, ws, total, times);
  }

  lemma CeilingArithmetic(n: nat, total: nat)
    ensures n - (n - 1) * (-2 * total) + 2 * total == n * (2 * total + 1)
  {
    Distribute(n, -1, -2 * total);
    Distribute(2 * total, 1, n);
  }

  /** A floor of -2P under everybody is also a ceiling over everybody. */
  lemma CeilingFromFloor(ps: seq<int>, i: nat, total: nat)
    requires i < |ps| && Sum(ps) < |ps| && Floor(ps, -2 * total)
    ensures ps[i] + 2 * total < |ps| * (2 * total + 1)
  {
    EntryFromSum(ps, i, -2 * total);
    CeilingArithmetic(|ps|, total);
  }

  /** Nor is anybody served much less often. */
  lemma NobodyIsNeglected(ps: seq<int>, ws: seq<int>, total: nat, times: nat, i: nat)
    requires |ps| == |ws| && PowersOf(ws, total) && i < |ps| && Levelled(ps, total)
    ensures Wins(ps, ws, total, times, i) * total > times * ws[i] - |ps| * (2 * total + 1)
  {
    Ledger(ps, ws, total, times, i);
    TurnsKeep(ps, ws, total, times);
    CeilingFromFloor(Turns(ps, ws, total, times), i, total);
  }

  /** So everybody proposes within a bounded number of rounds. */
  lemma EverybodyWins(ps: seq<int>, ws: seq<int>, total: nat, times: nat, i: nat)
    requires |ps| == |ws| && PowersOf(ws, total) && i < |ps| && Levelled(ps, total)
    requires times * ws[i] >= |ps| * (2 * total + 1)
    ensures Wins(ps, ws, total, times, i) >= 1
  {
    NobodyIsNeglected(ps, ws, total, times, i);
  }

  // ---------------------------------------------------------------- clipping

  function SafeAdd(a: int, b: int): (int, bool) {
    if b > 0 && a > MAX_INT64 - b then (-1, true)
    else if b < 0 && a < MIN_INT64 - b then (-1, true)
    else (a + b, false)
  }

  function SafeSub(a: int, b: int): (int, bool) {
    if b > 0 && a < MIN_INT64 + b then (-1, true)
    else if b < 0 && a > MAX_INT64 + b then (-1, true)
    else (a - b, false)
  }

  function SafeAddClip(a: int, b: int): (c: int)
    requires InInt64(a) && InInt64(b)
    ensures c == if a + b > MAX_INT64 then MAX_INT64 else if a + b < MIN_INT64 then MIN_INT64 else a + b
  {
    var (c, overflow) := SafeAdd(a, b);
    if overflow then (if b < 0 then MIN_INT64 else MAX_INT64) else c
  }

  function SafeSubClip(a: int, b: int): (c: int)
    requires InInt64(a) && InInt64(b)
    ensures c == if a - b > MAX_INT64 then MAX_INT64 else if a - b < MIN_INT64 then MIN_INT64 else a - b
  {
    var (c, overflow) := SafeSub(a, b);
    if overflow then (if b > 0 then MIN_INT64 else MAX_INT64) else c
  }

  predicate AllInt64(s: seq<int>) {
    forall i :: 0 <= i < |s| ==> InInt64(s[i])
  }

  function ClippedRaised(ps: seq<int>, ws: seq<int>): (r: seq<int>)
    requires |ps| == |ws| && AllInt64(ps) && AllInt64(ws)
    ensures |r| == |ps| && AllInt64(r)
  {
    seq(|ps|, i requires 0 <= i < |ps| => SafeAddClip(ps[i], ws[i]))
  }

  /** One round as the code runs it, with saturating additions. */
  ghost function ClippedTurn(ps: seq<int>, ws: seq<int>, total: int): (r: seq<int>)
    requires |ps| == |ws| && ps != [] && AllInt64(ps) && AllInt64(ws) && InInt64(total)
    ensures |r| == |ps| && AllInt64(r)
  {
    var up := ClippedRaised(ps, ws);
    var k := Leader(up);
    seq(|ps|, i requires 0 <= i < |ps| => if i == k then SafeSubClip(up[i], total) else up[i])
  }

  ghost function ClippedTurns(ps: seq<int>, ws: seq<int>, total: int, times: nat): (r: seq<int>)
    requires |ps| == |ws| && ps != [] && AllInt64(ps) && AllInt64(ws) && InInt64(total)
    ensures |r| == |ps| && AllInt64(r)
  {
    if times == 0 then ps else ClippedTurn(ClippedTurns(ps, ws, total, times - 1), ws, total)
  }

  lemma RaiseWithoutClipping(ps: seq<int>, ws: seq<int>)
    requires |ps| == |ws| && AllInt64(ps) && AllInt64(ws)
    requires forall i :: 0 <= i < |ps| ==> InInt64(ps[i] + ws[i])
    ensures ClippedRaised(ps, ws) == Raised(ps, ws)
  {
  }

  lemma ExactTurn(ps: seq<int>, ws: seq<int>, total: int)
    requires |ps| == |ws| && ps != [] && AllInt64(ps) && AllInt64(ws) && InInt64(total)
    requires forall i :: 0 <= i < |ps| ==> InInt64(ps[i] + ws[i])
    requires var k := Winner(ps, ws); InInt64(ps[k] + ws[k] - total)
    ensures ClippedTurn(ps, ws, total) == Turn(ps, ws, total)
  {
    RaiseWithoutClipping(ps, ws);
  }

  lemma TurnWithoutClipping(ps: seq<int>, ws: seq<int>, total: int)
    requires |ps| == |ws| && ps != [] && AllInt64(ps) && AllInt64(ws) && InInt64(total) && PowersOf(ws, total)
    requires Sum(ps) >= 0 && Floor(ps, -2 * total)
    requires forall i :: 0 <= i < |ps| ==> ps[i] + total <= MAX_INT64
    ensures ClippedTurn(ps, ws, total) == Turn(ps, ws, total)
  {
    PowersWithinTotal(ws, total);
    WinnerIsPositive(ps, ws, total);
    ExactTurn(ps, ws, total);
  }

  lemma RoomToRise(ps: seq<int>, total: nat)
    requires Sum(ps) < |ps| && Floor(ps, -2 * total)
    requires |ps| * (2 * total + 1) + total <= MAX_INT64
    ensures forall i :: 0 <= i < |ps| ==> ps[i] + total <= MAX_INT64
  {
    forall i | 0 <= i < |ps|
      ensures ps[i] + total <= MAX_INT64
    {
      CeilingFromFloor(ps, i, total);
    }
  }

  /** A single round never clips when 3P fits; for more rounds it suffices that n*(2P+1)+P
      fits. */
  lemma {:induction false} NothingClips(ps: seq<int>, ws: seq<int>, total: nat, times: nat)
    requires |ps| == |ws| && ps != [] && AllInt64(ps) && AllInt64(ws) && InInt64(total) && PowersOf(ws, total)
    requires Levelled(ps, total)
    requires 3 * total <= MAX_INT64
    requires times <= 1 || |ps| * (2 * total + 1) + total <= MAX_INT64
    ensures ClippedTurns(ps, ws, total, times) == Turns(ps, ws, total, times)
  {
    if times > 0 {
      NothingClips(ps, ws, total, times - 1);
      TurnsKeep(ps, ws, total, times - 1);
      if times > 1 {
        RoomToRise(Turns(ps, ws, total, times - 1), total);
      }
      TurnWithoutClipping(Turns(ps, ws, total, times - 1), ws, total);
    }
  }

  /** Nor does the raise that begins round `times`, so its leader is the winner. */
  lemma LeaderIsWinner(ps: seq<int>, ws: seq<int>, total: nat, times: nat)
    requires |ps| == |ws| && ps != [] && AllInt64(ps) && AllInt64(ws) && InInt64(total) && PowersOf(ws, total)
    requires Levelled(ps, total) && 3 * total <= MAX_INT64
    requires times == 0 || |ps| * (2 * total + 1) + total <= MAX_INT64
    ensures Leader(ClippedRaised(ClippedTurns(ps, ws, total, times), ws)) == Winner(Turns(ps, ws, total, times), ws)
  {
    NothingClips(ps, ws, total, times);
    TurnsKeep(ps, ws, total, times);
    PowersWithinTotal(ws, total);
    var now := Turns(ps, ws, total, times);
    if times > 0 {
      RoomToRise(now, total);
    }
    RaiseWithoutClipping(now, ws);
  }
}
