/** Weighted selection of span producers (bor/selection.go, and SelectNextProducers of
    bor/keeper.go), with the draws of the random generator as an explicit list. */
module Selection {
  import opened GoInt
  import opened MapSums
  import opened Options
  import opened Sums
  import opened Validators

  // ---------------------------------------------------------------- weighted ranges

  predicate Weights(ws: seq<int>) {
    forall i :: 0 <= i < |ws| ==> ws[i] >= 0
  }

  predicate Ascend(a: seq<int>) {
    forall i, j :: 0 <= i <= j < |a| ==> a[i] <= a[j]
  }

  /** The cumulative weights. */
  function Ranges(ws: seq<int>): (r: seq<int>)
    ensures |r| == |ws|
  {
    seq(|ws|, i requires 0 <= i < |ws| => Sum(ws[..i + 1]))
  }

  lemma RangesAscend(ws: seq<int>)
    requires Weights(ws)
    ensures Ascend(Ranges(ws))
  {
    forall i, j | 0 <= i <= j < |ws|
      ensures Ranges(ws)[i] <= Ranges(ws)[j]
    {
      PrefixSums(ws, i + 1, j + 1);
    }
  }

  /** The cumulative weights as the uint64 additions leave them. */
  function WrappedRanges(ws: seq<int>): (r: seq<int>)
    ensures |r| == |ws|
  {
    seq(|ws|, i requires 0 <= i < |ws| => WrapU64(Sum(ws[..i + 1])))
  }

  lemma RangesFit(ws: seq<int>)
    requires Weights(ws) && Sum(ws) <= MAX_UINT64
    ensures WrappedRanges(ws) == Ranges(ws) && WrapU64(Sum(ws)) == Sum(ws)
  {
    assert ws[..|ws|] == ws;
    forall i | 0 <= i <= |ws|
      ensures 0 <= Sum(ws[..i]) <= MAX_UINT64
    {
      PrefixSums(ws, 0, i);
      PrefixSums(ws, i, |ws|);
    }
  }

  method CreateWeightedRanges(weights: seq<int>) returns (weightedRanges: seq<int>, totalWeight: int)
    ensures weightedRanges == WrappedRanges(weights) && totalWeight == WrapU64(Sum(weights))
    ensures Weights(weights) && Sum(weights) <= MAX_UINT64 ==>
              weightedRanges == Ranges(weights) && totalWeight == Sum(weights)
  {
    weightedRanges, totalWeight := [], 0;
    for i := 0 to |weights|
      invariant totalWeight == WrapU64(Sum(weights[..i]))
      invariant weightedRanges == WrappedRanges(weights)[..i]
    {
      assert weights[..i + 1][..i] == weights[..i];
      WrapOfSumU64(Sum(weights[..i]), weights[i]);
      totalWeight := WrapU64(totalWeight + weights[i]);
      weightedRanges := weightedRanges + [totalWeight];
    }
    assert weights[..|weights|] == weights;
    if Weights(weights) && Sum(weights) <= MAX_UINT64 {
      RangesFit(weights);
    }
  }

  // ---------------------------------------------------------------- the search

  /** The first index whose entry is at least `search`, or else the last one. */
  function Lowest(entries: seq<int>, search: int): (i: int)
    requires entries != []
    ensures 0 <= i < |entries|
  {
    if |entries| == 1 || entries[0] >= search then 0 else 1 + Lowest(entries[1..], search)
  }

  lemma {:induction false} LowestIs(entries: seq<int>, search: int, i: nat)
    requires i < |entries| && (i == |entries| - 1 || entries[i] >= search)
    requires forall j :: 0 <= j < i ==> entries[j] < search
    ensures Lowest(entries, search) == i
  {
    if i > 0 {
      assert entries[0] < search;
      LowestIs(entries[1..], search, i - 1);
    }
  }

  /** Where halving [l, r] ends, in a list in any order. */
  function Bisect(entries: seq<int>, search: int, l: nat, r: nat): (i: nat)
    requires l <= r < |entries|
    ensures l <= i <= r
    decreases r - l
  {
    if l == r then l
    else
      var mid := (l + r) / 2;
      if entries[mid] >= search then Bisect(entries, search, l, mid) else Bisect(entries, search, mid + 1, r)
  }

  lemma {:induction false} BisectIsLowest(entries: seq<int>, search: int, l: nat, r: nat)
    requires Ascend(entries) && l <= r < |entries|
    requires forall j :: 0 <= j < l ==> entries[j] < search
    requires r == |entries| - 1 || entries[r] >= search
    ensures Bisect(entries, search, l, r) == Lowest(entries, search)
    decreases r - l
  {
    if l == r {
      LowestIs(entries, search, l);
    } else {
      var mid := (l + r) / 2;
      if entries[mid] >= search {
        BisectIsLowest(entries, search, l, mid);
      } else {
        BisectIsLowest(entries, search, mid + 1, r);
      }
    }
  }

  /** The entry before, if there is one, is too small; the entry itself is not, unless it is the last. */
  predicate Boundary(entries: seq<int>, search: int, i: nat)
    requires i < |entries|
  {
    (i == 0 || entries[i - 1] < search) && (i == |entries| - 1 || entries[i] >= search)
  }

  lemma {:induction false} BisectIsBoundary(entries: seq<int>, search: int, l: nat, r: nat)
    requires l <= r < |entries|
    requires (l == 0 || entries[l - 1] < search) && (r == |entries| - 1 || entries[r] >= search)
    ensures Boundary(entries, search, Bisect(entries, search, l, r))
    decreases r - l
  {
    if l < r {
      var mid := (l + r) / 2;
      if entries[mid] >= search {
        BisectIsBoundary(entries, search, l, mid);
      } else {
        BisectIsBoundary(entries, search, mid + 1, r);
      }
    }
  }

  lemma BisectInFull(entries: seq<int>, search: int)
    requires entries != []
    ensures Boundary(entries, search, Bisect(entries, search, 0, |entries| - 1))
    ensures Ascend(entries) ==> Bisect(entries, search, 0, |entries| - 1) == Lowest(entries, search)
  {
    hide Boundary, Lowest, Bisect;
    BisectIsBoundary(entries, search, 0, |entries| - 1);
    if Ascend(entries) {
      BisectIsLowest(entries, search, 0, |entries| - 1);
    }
  }

  method BinarySearch(entries: seq<int>, search: int) returns (index: int)
    ensures index == if entries == [] then -1 else Bisect(entries, search, 0, |entries| - 1)
    ensures entries != [] && Ascend(entries) ==> index == Lowest(entries, search)
    ensures entries != [] ==> 0 <= index < |entries| && Boundary(entries, search, index)
  {
    hide Ascend, Lowest, Boundary;
    if |entries| == 0 {
      return -1;
    }
    BisectInFull(entries, search);
    var l, r := 0, |entries| - 1;
    while l < r
      invariant 0 <= l <= r < |entries|
      invariant Bisect(entries, search, l, r) == Bisect(entries, search, 0, |entries| - 1)
    {
      var mid := (l + r) / 2;
      if entries[mid] >= search {
        r := mid;
      } else {
        l := mid + 1;
      }
    }
    return l;
  }

  /** Some prefix is the first whose sum reaches the target. */
  lemma {:induction false} FirstReaching(ws: seq<int>, target: int) returns (i: nat)
    requires Weights(ws) && 1 <= target <= Sum(ws)
    ensures i < |ws| && Sum(ws[..i]) < target <= Sum(ws[..i + 1])
  {
    var n := |ws| - 1;
    assert ws[..n + 1] == ws;
    if Sum(ws[..n]) < target {
      return n;
    }
    i := FirstReaching(ws[..n], target);
    assert ws[..n][..i] == ws[..i] && ws[..n][..i + 1] == ws[..i + 1];
  }

  lemma FoundInterval(ws: seq<int>, target: int)
    requires Weights(ws) && ws != [] && 1 <= target <= Sum(ws)
    ensures var i := Lowest(Ranges(ws), target); Sum(ws[..i]) < target <= Sum(ws[..i + 1])
  {
    var i := FirstReaching(ws, target);
    RangesAscend(ws);
    assert forall j :: 0 <= j < i ==> Ranges(ws)[j] < target by {
      forall j | 0 <= j < i
        ensures Ranges(ws)[j] < target
      {
        PrefixSums(ws, j + 1, i);
      }
    }
    LowestIs(Ranges(ws), target, i);
  }

  /** A target finds index i exactly when it lies in the i-th of the adjoining intervals. */
  lemma TicketInterval(ws: seq<int>, target: int, i: nat)
    requires Weights(ws) && i < |ws| && 1 <= target <= Sum(ws)
    ensures Lowest(Ranges(ws), target) == i <==> Sum(ws[..i]) < target <= Sum(ws[..i + 1])
  {
    var found := Lowest(Ranges(ws), target);
    assert ws[..|ws|] == ws;
    FoundInterval(ws, target);
    if found < i {
      PrefixSums(ws, found + 1, i);
    } else if i < found {
      PrefixSums(ws, i + 1, found);
    }
  }

  /** The integers above a and up to b. */
  function Interval(a: int, b: int): (r: set<int>)
    ensures forall t :: t in r <==> a < t <= b
    ensures |r| == if a < b then b - a else 0
    decreases b - a
  {
    if a >= b then {} else Interval(a, b - 1) + {b}
  }

  function Targets(ws: seq<int>, i: int): set<int>
    requires ws != []
  {
    set t | 1 <= t <= Sum(ws) && Lowest(Ranges(ws), t) == i
  }

  /** Every entry has as many targets as its weight: none, if that is zero. */
  lemma TicketsAreWeights(ws: seq<int>, i: nat)
    requires Weights(ws) && i < |ws|
    ensures |Targets(ws, i)| == ws[i]
  {
    var a, b := Sum(ws[..i]), Sum(ws[..i + 1]);
    assert ws[..i + 1][..i] == ws[..i];
    PrefixSums(ws, 0, i);
    PrefixSums(ws, i + 1, |ws|);
    assert ws[..|ws|] == ws;
    forall t | 1 <= t <= Sum(ws)
      ensures Lowest(Ranges(ws), t) == i <==> a < t <= b
    {
      TicketInterval(ws, t, i);
    }
    assert Targets(ws, i) == Interval(a, b);
  }

  // ---------------------------------------------------------------- the draws

  /** Draws from here on are rejected. */
  function Limit(length: int): int
    requires length > 0
  {
    MAX_UINT64 - MAX_UINT64 % length - 1
  }

  /** The index of the first draw below the limit, from `from` on. */
  function FirstBelow(draws: seq<U64>, from: nat, limit: int): nat
    requires from <= |draws|
    decreases |draws| - from
  {
    if from == |draws| || draws[from] < limit then from else FirstBelow(draws, from + 1, limit)
  }

  /** The value in [min, max], and how many draws are then used up; None if they run out. The
      range [0, MaxUint64], for which the code divides by zero, is excluded. */
  method RandomRangeInclusive(min: U64, max: U64, draws: seq<U64>, from: nat) returns (value: Option<U64>, used: nat)
    requires from <= |draws| && (min > 0 || max < MAX_UINT64)
    ensures from <= used <= |draws|
    ensures max <= min ==> value == Some(max) && used == from
    ensures max > min ==>
              var at := FirstBelow(draws, from, Limit(max - min + 1));
              if at < |draws| then value == Some(min + draws[at] % (max - min + 1)) && used == at + 1 else value == None
    ensures max > min && value.Some? ==> min <= value.value <= max
  {
    if max <= min {
      return Some(max), from;
    }
    var rangeLength: int := max - min + 1;
    var maxAllowedValue := MAX_UINT64 - MAX_UINT64 % rangeLength - 1;
    used := from;
    while used < |draws| && draws[used] >= maxAllowedValue
      invariant from <= used <= |draws|
      invariant FirstBelow(draws, from, maxAllowedValue) == FirstBelow(draws, used, maxAllowedValue)
    {
      used := used + 1;
    }
    if used == |draws| {
      return None, used;
    }
    var randomValue: int := draws[used];
    return Some(min + randomValue % rangeLength), used + 1;
  }

  /** How many numbers below n leave the remainder o. */
  function Hits(n: nat, length: nat, o: nat): nat
    requires length > 0
  {
    if n == 0 then 0 else Hits(n - 1, length, o) + if (n - 1) % length == o then 1 else 0
  }

  lemma {:induction false} HitsOfBlocks(q: nat, j: nat, n: nat, length: nat, o: nat)
    requires o < length && j <= length && n == q * length + j
    ensures Hits(n, length, o) == q + if o < j then 1 else 0
    decreases q, j
  {
    if j > 0 {
      DivModFromParts(n - 1, q, length, j - 1);
      HitsOfBlocks(q, j - 1, n - 1, length, o);
    } else if q > 0 {
      Distribute(q - 1, 1, length);
      HitsOfBlocks(q - 1, length, n, length, o);
    }
  }

  /** Of the accepted draws, with k = MaxUint64 / R, every outcome but the largest has k, and
      the largest has one less. */
  lemma AcceptedDraws(length: int, o: nat)
    requires 2 <= length <= MAX_UINT64 && o < length
    ensures var k := MAX_UINT64 / length;
            && Limit(length) == k * length - 1 >= 0
            && Hits(Limit(length), length, o) == if o == length - 1 then k - 1 else k
  {
    var k := MAX_UINT64 / length;
    Remainder(MAX_UINT64, length);
    assert k >= 1;
    MulBound(length, k);
    Distribute(k - 1, 1, length);
    HitsOfBlocks(k - 1, length - 1, k * length - 1, length, o);
  }

  // ---------------------------------------------------------------- selecting producers

  datatype Candidate = Candidate(id: nat, power: int)

  function WeightsOf(cs: seq<Candidate>): (r: seq<int>)
    ensures |r| == |cs|
  {
    seq(|cs|, i requires 0 <= i < |cs| => WrapU64(cs[i].power))
  }

  /** The target that the draws from `from` on give, and how many draws are then used up. */
  function Draw(total: int, draws: seq<U64>, from: nat): Option<(int, nat)>
    requires from <= |draws|
  {
    if total <= 1 then Some((total, from))
    else
      var at := FirstBelow(draws, from, Limit(total));
      if at < |draws| then Some((1 + draws[at] % total, at + 1)) else None
  }

  /** The candidate that a target finds. */
  function Found(cs: seq<Candidate>, target: int): (i: nat)
    requires cs != []
    ensures i < |cs|
  {
    Bisect(WrappedRanges(WeightsOf(cs)), target, 0, |cs| - 1)
  }

  /** The chosen IDs, then those that the next `count` targets find. */
  function Picks(cs: seq<Candidate>, draws: seq<U64>, from: nat, chosen: seq<nat>, count: nat): Option<seq<nat>>
    requires from <= |draws|
    decreases count
  {
    if count == 0 then Some(chosen)
    else
      var draw := Draw(WrapU64(Sum(WeightsOf(cs))), draws, from);
      if draw.None? || cs == [] then None
      else Picks(cs, draws, draw.value.1, chosen + [cs[Found(cs, draw.value.0)].id], count - 1)
  }

  /** The ID of a candidate, of one with some power if there is one and the powers add up to an
      uint64. */
  predicate Chosen(cs: seq<Candidate>, id: nat) {
    exists c :: c in cs && c.id == id && (0 < Sum(WeightsOf(cs)) <= MAX_UINT64 ==> c.power != 0)
  }

  lemma FoundIsLowest(cs: seq<Candidate>, target: int)
    requires cs != [] && Sum(WeightsOf(cs)) <= MAX_UINT64
    ensures Found(cs, target) == Lowest(Ranges(WeightsOf(cs)), target)
  {
    var ws := WeightsOf(cs);
    RangesFit(ws);
    RangesAscend(ws);
    BisectIsLowest(Ranges(ws), target, 0, |cs| - 1);
  }

  lemma ChosenByTarget(cs: seq<Candidate>, target: int)
    requires cs != []
    requires 0 < Sum(WeightsOf(cs)) <= MAX_UINT64 ==> 1 <= target <= Sum(WeightsOf(cs))
    ensures Chosen(cs, cs[Found(cs, target)].id)
  {
    var ws, i := WeightsOf(cs), Found(cs, target);
    if 0 < Sum(ws) <= MAX_UINT64 {
      FoundIsLowest(cs, target);
      FoundInterval(ws, target);
      assert ws[..i + 1][..i] == ws[..i];
    }
    assert cs[i] in cs;
  }

  /** Every pick is the ID of a candidate; those of zero power are never picked unless all are. */
  lemma {:induction false} PicksAreChosen(cs: seq<Candidate>, draws: seq<U64>, from: nat, chosen: seq<nat>, count: nat)
    requires from <= |draws|
    requires forall i :: 0 <= i < |chosen| ==> Chosen(cs, chosen[i])
    ensures var ids := Picks(cs, draws, from, chosen, count);
            ids.Some? ==> && |ids.value| == |chosen| + count
                          && forall i :: 0 <= i < |ids.value| ==> Chosen(cs, ids.value[i])
    decreases count
  {
    var ws := WeightsOf(cs);
    if count > 0 {
      var draw := Draw(WrapU64(Sum(ws)), draws, from);
      if draw.Some? && cs != [] {
        SumAtLeast(ws, 0);
        ChosenByTarget(cs, draw.value.0);
        PicksAreChosen(cs, draws, draw.value.1, chosen + [cs[Found(cs, draw.value.0)].id], count - 1);
      }
    }
  }

  // ---------------------------------------------------------------- the picks, from the draws alone

  /** The largest multiple of the total that is an uint64, less one. */
  function Ceiling(total: nat): int
    requires total > 0
  {
    MAX_UINT64 / total * total - 1
  }

  /** The target of a draw. */
  function Ticket(draw: U64, total: nat): (target: int)
    requires total > 0
    ensures 1 <= target <= total
  {
    1 + draw % total
  }

  /** The draws that are not rejected, in their order. */
  function Accepted(draws: seq<U64>, ceiling: int): seq<U64> {
    if draws == [] then [] else (if draws[0] < ceiling then [draws[0]] else []) + Accepted(draws[1..], ceiling)
  }

  lemma {:induction false} AcceptedFrom(draws: seq<U64>, from: nat, ceiling: int)
    requires from <= |draws|
    ensures from <= FirstBelow(draws, from, ceiling) <= |draws|
    ensures var at, rest := FirstBelow(draws, from, ceiling), Accepted(draws[from..], ceiling);
            if at < |draws| then rest == [draws[at]] + Accepted(draws[at + 1..], ceiling) else rest == []
    decreases |draws| - from
  {
    if from < |draws| {
      assert draws[from..][1..] == draws[from + 1..];
      if draws[from] >= ceiling {
        AcceptedFrom(draws, from + 1, ceiling);
      }
    }
  }

  /** The total is wide enough for a draw, and an uint64. */
  predicate Drawable(cs: seq<Candidate>, total: int) {
    && total == Sum(WeightsOf(cs)) && 2 <= total <= MAX_UINT64
  }

  /** Candidate c is the one in whose interval of the cumulative powers the target lies. */
  predicate Hit(cs: seq<Candidate>, target: int, c: nat) {
    c < |cs| && Sum(WeightsOf(cs)[..c]) < target <= Sum(WeightsOf(cs)[..c + 1])
  }

  /** The ID is that of the candidate that one more than the remainder of the draw hits. */
  ghost predicate Picked(cs: seq<Candidate>, total: nat, draw: U64, id: nat)
    requires total > 0
  {
    exists c: nat :: Hit(cs, Ticket(draw, total), c) && id == cs[c].id
  }

  lemma FoundIsHit(cs: seq<Candidate>, total: nat, target: int)
    requires Drawable(cs, total) && 1 <= target <= total
    ensures cs != [] && Hit(cs, target, Found(cs, target))
  {
    FoundIsLowest(cs, target);
    FoundInterval(WeightsOf(cs), target);
  }

  lemma CeilingIsLimit(total: nat)
    requires 2 <= total <= MAX_UINT64
    ensures Limit(total) == Ceiling(total)
  {
    AcceptedDraws(total, 0);
  }

  lemma NobodyWeighsNothing(cs: seq<Candidate>, total: nat)
    requires Drawable(cs, total)
    ensures cs != []
  {
  }

  lemma PicksStep(cs: seq<Candidate>, draws: seq<U64>, from: nat, chosen: seq<nat>, count: nat, total: nat)
    requires from <= |draws| && count > 0 && Drawable(cs, total)
    ensures cs != [] && FirstBelow(draws, from, Ceiling(total)) <= |draws|
    ensures var at := FirstBelow(draws, from, Ceiling(total));
            Picks(cs, draws, from, chosen, count) ==
              if at == |draws| then None
              else Picks(cs, draws, at + 1, chosen + [cs[Found(cs, Ticket(draws[at], total))].id], count - 1)
  {
    hide Found, FirstBelow, Sum;
    CeilingIsLimit(total);
    AcceptedFrom(draws, from, Ceiling(total));
    NobodyWeighsNothing(cs, total);
  }

  lemma FoundIsPicked(cs: seq<Candidate>, total: nat, draw: U64)
    requires Drawable(cs, total)
    ensures cs != [] && Picked(cs, total, draw, cs[Found(cs, Ticket(draw, total))].id)
  {
    FoundIsHit(cs, total, Ticket(draw, total));
  }

  /** After the chosen ones come `count` IDs, each picked by the next of the accepted draws. */
  ghost predicate Follow(cs: seq<Candidate>, total: nat, accepted: seq<U64>, chosen: seq<nat>, ids: seq<nat>,
      count: nat)
    requires total > 0
  {
    && |ids| == |chosen| + count && count <= |accepted| && chosen <= ids
    && forall i :: 0 <= i < count ==> Picked(cs, total, accepted[i], ids[|chosen| + i])
  }

  lemma FollowStep(cs: seq<Candidate>, total: nat, draw: U64, accepted: seq<U64>, chosen: seq<nat>, id: nat,
      ids: seq<nat>, count: nat)
    requires total > 0 && count > 0 && Picked(cs, total, draw, id)
    requires Follow(cs, total, accepted, chosen + [id], ids, count - 1)
    ensures Follow(cs, total, [draw] + accepted, chosen, ids, count)
  {
    hide Picked;
    assert ids[|chosen|] == (chosen + [id])[|chosen|];
    assert chosen == (chosen + [id])[..|chosen|];
  }

  lemma NothingToPick(cs: seq<Candidate>, draws: seq<U64>, from: nat, chosen: seq<nat>, total: nat)
    requires from <= |draws| && total > 0
    ensures Picks(cs, draws, from, chosen, 0) == Some(chosen)
    ensures Follow(cs, total, Accepted(draws[from..], Ceiling(total)), chosen, chosen, 0)
  {
    hide Picked;
  }

  /** There are picks exactly as long as there are accepted draws, and each pick follows its draw. */
  lemma {:induction false} PicksFollow(cs: seq<Candidate>, draws: seq<U64>, from: nat, chosen: seq<nat>, count: nat,
      total: nat)
    requires from <= |draws| && Drawable(cs, total) && total > 0
    ensures var ids, accepted := Picks(cs, draws, from, chosen, count), Accepted(draws[from..], Ceiling(total));
            && (ids.Some? <==> count <= |accepted|)
            && (ids.Some? ==> Follow(cs, total, accepted, chosen, ids.value, count))
    decreases count
  {
    hide Found, FirstBelow, Picked, Accepted, Drawable, Ceiling, Ticket, Follow, Picks, Sum;
    if count == 0 {
      NothingToPick(cs, draws, from, chosen, total);
    } else {
      var at := FirstBelow(draws, from, Ceiling(total));
      PicksStep(cs, draws, from, chosen, count, total);
      AcceptedFrom(draws, from, Ceiling(total));
      if at < |draws| {
        var next := cs[Found(cs, Ticket(draws[at], total))].id;
        FoundIsPicked(cs, total, draws[at]);
        PicksFollow(cs, draws, at + 1, chosen + [next], count - 1, total);
        var ids := Picks(cs, draws, at + 1, chosen + [next], count - 1);
        if ids.Some? {
          FollowStep(cs, total, draws[at], Accepted(draws[at + 1..], Ceiling(total)), chosen, next, ids.value, count);
        }
      }
    }
  }

  /** With a total from 2 up to the largest uint64: there are `count` picks exactly when that many draws are
      accepted, and each follows its draw. */
  ghost predicate PicksFromDraws(cs: seq<Candidate>, draws: seq<U64>, count: nat, ids: Option<seq<nat>>) {
    var total := Sum(WeightsOf(cs));
    2 <= total <= MAX_UINT64 ==>
      var accepted := Accepted(draws, Ceiling(total));
      (ids.Some? <==> count <= |accepted|) && (ids.Some? ==> Follow(cs, total, accepted, [], ids.value, count))
  }

  lemma PicksFollowDraws(cs: seq<Candidate>, draws: seq<U64>, count: nat)
    ensures PicksFromDraws(cs, draws, count, Picks(cs, draws, 0, [], count))
  {
    hide Accepted, Ceiling, Follow, Picks, Sum;
    var total := Sum(WeightsOf(cs));
    if 2 <= total <= MAX_UINT64 {
      PicksFollow(cs, draws, 0, [], count, total);
      assert draws[0..] == draws;
    }
  }

  /** All candidates if they are no more than the producers wanted, or else one for each target.
      None: the draws run out (or, with no candidate at all, a panic). */
  method SelectNextProducers(candidates: seq<Candidate>, producerCount: U64, draws: seq<U64>)
    returns (ids: Option<seq<nat>>)
    ensures |candidates| <= Wrap64(producerCount) ==>
              && ids.Some? && |ids.value| == |candidates|
              && forall i :: 0 <= i < |candidates| ==> ids.value[i] == candidates[i].id
    ensures |candidates| > Wrap64(producerCount) ==> ids == Picks(candidates, draws, 0, [], producerCount)
    ensures |candidates| > Wrap64(producerCount) ==> PicksFromDraws(candidates, draws, producerCount, ids)
  {
    hide Ranges, WrappedRanges, Bisect, Lowest, Ascend, Weights, Sum, Limit, FirstBelow, Wrap64, WrapU64;
    hide PicksFromDraws, Boundary;
    PicksFollowDraws(candidates, draws, producerCount);
    if |candidates| <= Wrap64(producerCount) {
      var all := [];
      for i := 0 to |candidates|
        invariant |all| == i && forall j :: 0 <= j < i ==> all[j] == candidates[j].id
      {
        all := all + [candidates[i].id];
      }
      return Some(all);
    }
    var votingPower := WeightsOf(candidates);
    var weightedRanges, total := CreateWeightedRanges(votingPower);
    var selected: seq<nat> := [];
    var used := 0;
    for i := 0 to producerCount
      invariant |selected| == i && used <= |draws|
      invariant Picks(candidates, draws, 0, [], producerCount) ==
                Picks(candidates, draws, used, selected, producerCount - i)
    {
      var target;
      target, used := RandomRangeInclusive(1, total, draws, used);
      if target.None? || |candidates| == 0 {
        return None;
      }
      var index := BinarySearch(weightedRanges, target.value);
      selected := selected + [candidates[index].id];
    }
    return Some(selected);
  }

  // ---------------------------------------------------------------- the chance of a candidate

  /** How many draws below n give a target that finds candidate i. */
  function DrawsFor(cs: seq<Candidate>, total: int, n: nat, i: nat): nat
    requires cs != [] && total > 0
  {
    if n == 0 then 0 else DrawsFor(cs, total, n - 1, i) + if Found(cs, 1 + (n - 1) % total) == i then 1 else 0
  }

  /** How many numbers below n leave a remainder from a up to below b. */
  function HitsBetween(n: nat, length: nat, a: int, b: int): nat
    requires length > 0
  {
    if n == 0 then 0 else HitsBetween(n - 1, length, a, b) + if a <= (n - 1) % length < b then 1 else 0
  }

  lemma {:induction false} BetweenOfBlocks(q: nat, j: nat, n: nat, length: nat, a: nat, b: nat)
    requires a <= b <= length && 0 < length && j <= length && n == q * length + j
    ensures HitsBetween(n, length, a, b) == q * (b - a) + (if j <= a then 0 else if j <= b then j - a else b - a)
    decreases q, j
  {
    if j > 0 {
      DivModFromParts(n - 1, q, length, j - 1);
      BetweenOfBlocks(q, j - 1, n - 1, length, a, b);
    } else if q > 0 {
      Distribute(q - 1, 1, length);
      Distribute(q - 1, 1, b - a);
      BetweenOfBlocks(q - 1, length, n, length, a, b);
    }
  }

  lemma {:induction false} DrawsAreHits(cs: seq<Candidate>, total: int, n: nat, i: nat)
    requires i < |cs| && total == Sum(WeightsOf(cs)) && 0 < total <= MAX_UINT64
    ensures var ws := WeightsOf(cs);
            DrawsFor(cs, total, n, i) == HitsBetween(n, total, Sum(ws[..i]), Sum(ws[..i + 1]))
  {
    hide Found;
    if n > 0 {
      DrawsAreHits(cs, total, n - 1, i);
      FoundIsLowest(cs, 1 + (n - 1) % total);
      TicketInterval(WeightsOf(cs), 1 + (n - 1) % total, i);
    }
  }

  lemma PrefixesWithin(ws: seq<int>, i: nat)
    requires Weights(ws) && i < |ws|
    ensures 0 <= Sum(ws[..i]) <= Sum(ws[..i + 1]) <= Sum(ws)
    ensures Sum(ws[..i + 1]) - Sum(ws[..i]) == ws[i]
  {
    PrefixSums(ws, 0, i);
    PrefixSums(ws, i, i + 1);
    PrefixSums(ws, i + 1, |ws|);
    assert ws[..|ws|] == ws;
    assert ws[..i + 1][..i] == ws[..i];
  }

  lemma BlocksBelowLimit(total: nat, k: nat, a: nat, b: nat)
    requires 2 <= total && k >= 1 && a <= b <= total
    ensures k * total - 1 >= 0
    ensures HitsBetween(k * total - 1, total, a, b) == (b - a) * k - if a < total <= b then 1 else 0
  {
    MulBound(total, k);
    Distribute(k - 1, 1, total);
    Distribute(k - 1, 1, b - a);
    BetweenOfBlocks(k - 1, total - 1, k * total - 1, total, a, b);
  }

  lemma DrawsPerWeight(cs: seq<Candidate>, i: nat)
    requires i < |cs| && 2 <= Sum(WeightsOf(cs)) <= MAX_UINT64
    ensures var total := Sum(WeightsOf(cs));
            && Limit(total) >= 0
            && DrawsFor(cs, total, Limit(total), i)
               == WeightsOf(cs)[i] * (MAX_UINT64 / total) - if Found(cs, total) == i then 1 else 0
  {
    hide Found, Sum;
    var ws, total := WeightsOf(cs), Sum(WeightsOf(cs));
    var a, b, k := Sum(ws[..i]), Sum(ws[..i + 1]), MAX_UINT64 / total;
    AcceptedDraws(total, 0);
    PrefixesWithin(ws, i);
    DrawsAreHits(cs, total, Limit(total), i);
    FoundIsLowest(cs, total);
    TicketInterval(ws, total, i);
    MulBound(total, k);
    BlocksBelowLimit(total, k, a, b);
  }

  lemma WeightIsPower(cs: seq<Candidate>, i: nat)
    requires i < |cs|
    ensures WeightsOf(cs)[i] == cs[i].power % TWO_TO_64
  {
    UnsignedIsMod(cs[i].power);
  }

  /** Of the accepted draws each candidate gets MaxUint64 / total for every unit of its power, as an
      uint64, but the one that the last target finds gets one less. */
  lemma DrawsPerCandidate(cs: seq<Candidate>, i: nat)
    requires i < |cs| && 2 <= Sum(WeightsOf(cs)) <= MAX_UINT64
    ensures var total := Sum(WeightsOf(cs));
            && Limit(total) >= 0
            && DrawsFor(cs, total, Limit(total), i)
               == (cs[i].power % TWO_TO_64) * (MAX_UINT64 / total) - if Found(cs, total) == i then 1 else 0
  {
    hide Found, Sum, WeightsOf, DrawsFor;
    DrawsPerWeight(cs, i);
    WeightIsPower(cs, i);
  }

  /** How often each ID was chosen. */
  ghost predicate Tallied(counts: map<nat, nat>, ids: seq<nat>) {
    && (forall id :: id in counts <==> id in ids)
    && MapSum(counts) == |ids|
    && (forall id :: id in counts ==> counts[id] == multiset(ids)[id] > 0)
  }

  lemma TalliedStep(counts: map<nat, nat>, ids: seq<nat>, id: nat, count: nat)
    requires Tallied(counts, ids) && count == if id in counts then counts[id] else 0
    ensures Tallied(counts[id := count + 1], ids + [id])
  {
    MapSumInsert(counts, id, count + 1);
    var now := ids + [id];
    assert multiset(now) == multiset(ids) + multiset{id};
    assert forall k :: k in now <==> k in ids || k == id;
    assert id !in counts ==> multiset(ids)[id] == 0;
  }

  method CountIds(ids: seq<nat>) returns (counts: map<nat, nat>)
    ensures Tallied(counts, ids)
  {
    counts := map[];
    MapSumEmpty(counts);
    assert Tallied(counts, ids[..0]);
    hide Tallied;
    for i := 0 to |ids|
      invariant Tallied(counts, ids[..i])
    {
      var id := ids[i];
      assert ids[..i + 1] == ids[..i] + [id];
      TalliedStep(counts, ids[..i], id, if id in counts then counts[id] else 0);
      counts := counts[id := (if id in counts then counts[id] else 0) + 1];
    }
    assert ids[..|ids|] == ids;
  }

  function Resolved(counts: map<nat, nat>, stored: map<nat, Validator>): map<nat, nat> {
    map id | id in counts && id in stored :: counts[id]
  }

  /** The list holds each counted and stored validator, its power replaced by its count. */
  ghost predicate Assigned(vals: seq<Validator>, counts: map<nat, nat>, stored: map<nat, Validator>) {
    && (forall v :: v in vals <==> exists k :: k in counts && k in stored && v == stored[k].(power := counts[k]))
    && TotalPower(vals) == MapSum(Resolved(counts, stored))
  }

  lemma NothingAssigned(stored: map<nat, Validator>)
    ensures Assigned([], map[], stored)
  {
    MapSumEmpty(Resolved(map[], stored));
  }

  lemma {:induction false} TotalPowerConcat(vs: seq<Validator>, ws: seq<Validator>)
    ensures TotalPower(vs + ws) == TotalPower(vs) + TotalPower(ws)
  {
    if vs == [] {
      assert vs + ws == ws;
    } else {
      TotalPowerConcat(vs[1..], ws);
      assert (vs + ws)[1..] == vs[1..] + ws;
    }
  }

  lemma TotalPowerAppend(vs: seq<Validator>, v: Validator)
    ensures TotalPower(vs + [v]) == TotalPower(vs) + v.power
  {
    TotalPowerConcat(vs, [v]);
  }

  lemma AssignedStep(vals: seq<Validator>, counts: map<nat, nat>, stored: map<nat, Validator>, id: nat, count: nat)
    requires Assigned(vals, counts, stored) && id !in counts
    ensures Assigned(if id in stored then vals + [stored[id].(power := count)] else vals, counts[id := count], stored)
  {
    if id in stored {
      TotalPowerAppend(vals, stored[id].(power := count));
      assert Resolved(counts[id := count], stored) == Resolved(counts, stored)[id := count];
      MapSumInsert(Resolved(counts, stored), id, count);
    } else {
      assert Resolved(counts[id := count], stored) == Resolved(counts, stored);
    }
  }

  lemma {:induction false} InsertKeepsTotal(v: Validator, vs: seq<Validator>)
    ensures TotalPower(Insert(v, vs)) == v.power + TotalPower(vs)
  {
    if vs == [] || v.signer < vs[0].signer {
    } else {
      InsertKeepsTotal(v, vs[1..]);
    }
  }

  lemma {:induction false} SortKeepsTotal(vs: seq<Validator>)
    ensures TotalPower(SortByAddress(vs)) == TotalPower(vs)
  {
    if vs != [] {
      var n := |vs| - 1;
      SortKeepsTotal(vs[..n]);
      InsertKeepsTotal(vs[n], SortByAddress(vs[..n]));
      TotalPowerAppend(vs[..n], vs[n]);
      assert vs == vs[..n] + [vs[n]];
    }
  }

  lemma AssignedSorted(vals: seq<Validator>, counts: map<nat, nat>, stored: map<nat, Validator>)
    requires Assigned(vals, counts, stored)
    ensures Assigned(SortByAddress(vals), counts, stored) && Ascending(SortByAddress(vals))
  {
    hide SortByAddress, Resolved;
    SortAscends(vals);
    SortKeepsTotal(vals);
    forall v
      ensures v in SortByAddress(vals) <==> v in vals
    {
      SortMembers(vals, v);
    }
  }

  lemma EntryAtMostSum(m: map<nat, nat>, k: nat)
    requires k in m
    ensures m[k] <= MapSum(m)
  {
    MapSumRemove(m, k);
  }

  method AssignPowers(iDToPower: map<nat, nat>, stored: map<nat, Validator>) returns (vals: seq<Validator>)
    requires MapSum(iDToPower) <= MAX_INT64
    ensures Assigned(vals, iDToPower, stored) && Ascending(vals)
  {
    hide Assigned, SortByAddress, Ascending;
    vals := [];
    var keys := iDToPower.Keys;
    NothingAssigned(stored);
    assert iDToPower - keys == map[];
    while keys != {}
      invariant keys <= iDToPower.Keys && Assigned(vals, iDToPower - keys, stored)
      decreases keys
    {
      var key :| key in keys;
      var value := iDToPower[key];
      EntryAtMostSum(iDToPower, key);
      AssignedStep(vals, iDToPower - keys, stored, key, value);
      assert iDToPower - (keys - {key}) == (iDToPower - keys)[key := value];
      if key in stored {
        vals := vals + [stored[key].(power := Wrap64(value))];
      }
      keys := keys - {key};
    }
    assert iDToPower - {} == iDToPower;
    AssignedSorted(vals, iDToPower, stored);
    vals := SortByAddress(vals);
  }

  /** The producers of a span: each chosen validator, its power replaced by the number of times
      it was chosen, in address order. */
  method ProducersFromIds(ids: seq<nat>, stored: map<nat, Validator>)
    returns (vals: seq<Validator>, ghost counts: map<nat, nat>)
    requires |ids| <= MAX_INT64
    ensures Tallied(counts, ids) && Ascending(vals)
    ensures forall v :: v in vals <==> exists k :: k in counts && k in stored && v == stored[k].(power := counts[k])
    ensures TotalPower(vals) == MapSum(Resolved(counts, stored))
  {
    var iDToPower := CountIds(ids);
    counts := iDToPower;
    vals := AssignPowers(iDToPower, stored);
  }

  lemma {:induction false} SumWithout(m: map<nat, nat>, keys: set<nat>)
    requires keys <= m.Keys && forall k :: k in m ==> m[k] > 0
    ensures MapSum(m - keys) <= MapSum(m)
    ensures MapSum(m - keys) == MapSum(m) <==> keys == {}
    decreases keys
  {
    if keys == {} {
      assert m - keys == m;
    } else {
      var k :| k in keys;
      SumWithout(m - {k}, keys - {k});
      assert m - {k} - (keys - {k}) == m - keys;
      MapSumRemove(m, k);
    }
  }

  /** The powers of the producers add up to the number of IDs chosen if and only if all of
      them resolve. */
  lemma PowersAddUpIff(counts: map<nat, nat>, ids: seq<nat>, stored: map<nat, Validator>)
    requires Tallied(counts, ids)
    ensures MapSum(Resolved(counts, stored)) == |ids| <==> forall id :: id in ids ==> id in stored
  {
    var missing := counts.Keys - stored.Keys;
    assert Resolved(counts, stored) == counts - missing;
    SumWithout(counts, missing);
    if id :| id in ids && id !in stored {
      assert id in missing;
    }
    if k :| k in missing {
      assert k in ids;
    }
  }
}
