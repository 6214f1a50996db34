/** How far the accounts of the tick protocol reach: a condition on powers and fractions under
    which no total overflows and every slash takes its amount, runs on which they do, and when an
    acknowledgement lets a jailed validator go (slashing/keeper.go, staking/keeper.go). */
module TickLimits {
  import opened GoInt
  import opened MapSums
  import opened Ticks
  import Votes = SideTx

  // ---------------------------------------------------------------- powers that are small enough

  predicate StakersWithin(stakers: map<nat, Staker>, ids: set<nat>, max: nat) {
    stakers.Keys <= ids && forall k :: k in stakers ==> 0 <= stakers[k].power <= max
  }

  /** What slashes by at most the whole power leave in buffer and tick data. */
  predicate InfosWithin(infos: map<nat, Info>, ids: set<nat>, max: nat) {
    && infos.Keys <= ids
    && forall k :: k in infos ==> infos[k].amount <= 2 * max && (infos[k].jailed || infos[k].amount < max)
  }

  predicate Limited(s: Store, ids: set<nat>, max: nat) {
    StakersWithin(s.stakers, ids, max) && InfosWithin(s.buffer, ids, max) && InfosWithin(s.tick, ids, max)
  }

  /** Fractions are at most 1 and restaking stays within the bounds. */
  predicate Modest(op: Op, ids: set<nat>, max: nat) {
    match op
    case SlashInterim(_, percent, jailPercent) => percent <= PRECISION && jailPercent <= PRECISION
    case Restake(stakers) => StakersWithin(stakers, ids, max)
    case _ => true
  }

  /** The bounds: twice a power fits int64, twice all powers fit uint64. */
  predicate SmallEnough(ids: set<nat>, max: nat) {
    2 * max <= MAX_INT64 && |ids| * (2 * max) <= MAX_UINT64
  }

  lemma ShareWithin(power: I64, percent: nat)
    requires 0 <= power && percent <= PRECISION
    ensures Share(power, percent) <= power
  {
    ProductOrdered(percent, PRECISION, power);
    ProductSign(power, percent);
    QuotientWithin(power * percent, PRECISION, 0, power);
  }

  lemma {:induction false} MapSumWithin(m: map<nat, nat>, b: nat)
    requires forall k :: k in m ==> m[k] <= b
    ensures MapSum(m) <= |m| * b
    decreases |m|
  {
    hide MapSum;
    if m == map[] {
      MapSumEmpty(m);
    } else {
      var k :| k in m;
      var rest := m - {k};
      MapSumRemove(m, k);
      assert rest.Keys == m.Keys - {k};
      MapSumWithin(rest, b);
      Distribute(|rest|, 1, b);
    }
  }

  lemma SumWithin(infos: map<nat, Info>, ids: set<nat>, max: nat)
    requires InfosWithin(infos, ids, max)
    ensures SumOf(infos) <= |ids| * (2 * max)
  {
    hide MapSum;
    var amounts := Amounts(infos);
    assert amounts.Keys == infos.Keys;
    MapSumWithin(amounts, 2 * max);
    SubsetSize(amounts.Keys, ids);
    ProductOrdered(|amounts|, |ids|, 2 * max);
  }

  /** A slash that the guard lets through fits, whatever has been slashed before. */
  lemma SlashIsModest(s: Store, op: Op, ids: set<nat>, max: nat)
    requires op.SlashInterim? && Modest(op, ids, max) && SmallEnough(ids, max) && Limited(s, ids, max)
    requires s.total == SumOf(s.buffer) && Slashable(s, op.id)
    ensures StepFits(s, op)
    ensures Limited(AfterSlashInterim(s, op.id, op.percent, op.jailPercent), ids, max)
  {
    var power, id := s.stakers[op.id].power, op.id;
    ShareWithin(power, op.percent);
    ShareWithin(power, op.jailPercent);
    var info := Raised(s.buffer, id, Share(power, op.percent), Share(power, op.jailPercent));
    assert InfosWithin(s.buffer[id := info], ids, max);
    RaisedSum(s.buffer, id, info);
    SumWithin(s.buffer[id := info], ids, max);
  }

  lemma AckIsModest(s: Store, ids: set<nat>, max: nat)
    requires SmallEnough(ids, max) && Limited(s, ids, max)
    ensures StakersWithin(Slashed(s.stakers, s.tick), ids, max)
  {
    forall k | k in s.stakers && k in s.tick
      ensures 0 <= SlashedPower(s.stakers[k].power, s.tick[k].amount) <= max
    {
      SlashTakesAmount(s.stakers[k].power, s.tick[k].amount);
    }
  }

  lemma StepIsModest(p: Protocol, op: Op, encode: Encoding, ids: set<nat>, max: nat)
    requires Modest(op, ids, max) && SmallEnough(ids, max) && Limited(p.store, ids, max)
    requires p.store.total == SumOf(p.store.buffer)
    ensures StepFits(p.store, op) && Limited(Apply(p, op, encode).store, ids, max)
  {
    match op
    case SlashInterim(id, percent, jailPercent) =>
      if Slashable(p.store, id) {
        SlashIsModest(p.store, op, ids, max);
      }
    case PostTickAck(msg, vote) => AckIsModest(p.store, ids, max);
    case _ =>
  }

  lemma NothingPending(stakers: map<nat, Staker>, ids: set<nat>, max: nat)
    requires StakersWithin(stakers, ids, max)
    ensures Limited(Start(stakers).store, ids, max)
  {
  }

  lemma SoundTotal(p: Protocol, encode: Encoding)
    requires Sound(p, encode)
    ensures p.store.total == SumOf(p.store.buffer)
  {
  }

  lemma {:induction false} ModestRuns(stakers: map<nat, Staker>, ops: seq<Op>, encode: Encoding, ids: set<nat>,
      max: nat)
    requires Faithful(encode) && |ops| <= MAX_UINT64 && SmallEnough(ids, max) && StakersWithin(stakers, ids, max)
    requires forall i :: 0 <= i < |ops| ==> Modest(ops[i], ids, max)
    ensures NoOverflow(Start(stakers), ops, encode)
    ensures Limited(Run(Start(stakers), ops, encode).store, ids, max)
  {
    hide Sound, Faithful, Conserved, SumOf, Modest, SmallEnough, StepFits, Apply, Limited;
    if ops == [] {
      NothingPending(stakers, ids, max);
    } else {
      var n := |ops| - 1;
      ModestRuns(stakers, ops[..n], encode, ids, max);
      RunsAreSound(stakers, ops[..n], encode);
      SoundTotal(Run(Start(stakers), ops[..n], encode), encode);
      StepIsModest(Run(Start(stakers), ops[..n], encode), ops[n], encode, ids, max);
    }
  }

  /** Conservation over every run, from a condition on its inputs alone: powers are at most `max`,
      validators come from a fixed set, and fractions are at most 1. The amounts pending in tick data
      are then taken from the powers exactly. */
  lemma ModestSlashesAreConserved(stakers: map<nat, Staker>, ops: seq<Op>, encode: Encoding, ids: set<nat>, max: nat)
    requires Faithful(encode) && |ops| <= MAX_UINT64 && SmallEnough(ids, max) && StakersWithin(stakers, ids, max)
    requires forall i :: 0 <= i < |ops| ==> Modest(ops[i], ids, max)
    ensures var p := Run(Start(stakers), ops, encode);
            && p.store.total == SumOf(p.store.buffer)
            && p.slashed == SumOf(p.store.buffer) + SumOf(p.store.tick) + p.acked
            && p.acks <= p.store.tickCount <= p.acks + 1
            && (p.store.tickCount == p.acks <==> p.store.tick == map[])
    ensures var s := Run(Start(stakers), ops, encode).store;
            forall k :: k in s.stakers && k in s.tick ==>
              SlashedPower(s.stakers[k].power, s.tick[k].amount)
              == if s.tick[k].amount <= s.stakers[k].power then s.stakers[k].power - s.tick[k].amount else 0
  {
    hide Run, NoOverflow, Start, SumOf, SlashedPower;
    ModestRuns(stakers, ops, encode, ids, max);
    SlashesAreConserved(stakers, ops, encode);
    var s := Run(Start(stakers), ops, encode).store;
    forall k | k in s.stakers && k in s.tick
      ensures SlashedPower(s.stakers[k].power, s.tick[k].amount)
           == if s.tick[k].amount <= s.stakers[k].power then s.stakers[k].power - s.tick[k].amount else 0
    {
      SlashTakesAmount(s.stakers[k].power, s.tick[k].amount);
    }
  }

  // ---------------------------------------------------------------- powers that are too large

  lemma RunStep(p: Protocol, ops: seq<Op>, op: Op, encode: Encoding)
    ensures Run(p, ops + [op], encode) == Apply(Run(p, ops, encode), op, encode)
  {
    assert (ops + [op])[..|ops|] == ops;
  }

  lemma RunNone(p: Protocol, encode: Encoding)
    ensures Run(p, [], encode) == p
  {
  }

  /** An encoding that tells only the empty buffer from the others. */
  function Coarse(b: map<nat, Info>): seq<Byte> {
    if b == map[] then [] else [1]
  }

  const THREE_STRONG: map<nat, Staker> :=
    map[1 := Staker(MAX_INT64, false), 2 := Staker(MAX_INT64, false), 3 := Staker(MAX_INT64, false)]

  /** The whole power, with the whole power as the jail limit. */
  function FullSlash(id: nat): Op {
    SlashInterim(id, PRECISION, PRECISION)
  }

  /** A full slash of a validator that the buffer does not know. */
  lemma FullSlashStep(p: Protocol, id: nat, encode: Encoding)
    requires p.store.stakers == THREE_STRONG && id in {1, 2, 3} && id !in p.store.buffer
    ensures var q := Apply(p, FullSlash(id), encode);
            && Slashable(p.store, id) && Share(MAX_INT64, PRECISION) == MAX_INT64
            && q.store.stakers == THREE_STRONG
            && q.store.buffer.Keys == p.store.buffer.Keys + {id}
            && q.store.total == WrapU64(p.store.total + MAX_INT64)
            && q.slashed == p.slashed + MAX_INT64
  {
  }

  lemma NoOverflowStep(p: Protocol, ops: seq<Op>, op: Op, encode: Encoding)
    ensures NoOverflow(p, ops + [op], encode) <==> NoOverflow(p, ops, encode) && StepFits(Run(p, ops, encode).store, op)
  {
    hide Run, StepFits;
    assert (ops + [op])[..|ops|] == ops;
  }

  lemma NothingOverflows(p: Protocol)
    ensures NoOverflow(p, [], Coarse) && Faithful(Coarse)
  {
  }

  lemma FullSlashFits(s: Store, id: nat)
    requires s.stakers == THREE_STRONG && id in {1, 2, 3} && Slashable(s, id)
    ensures StepFits(s, FullSlash(id)) <==> s.total + MAX_INT64 <= MAX_UINT64
  {
  }

  /** Three full slashes of the largest power: the third one breaks the accounts. */
  lemma ThirdFullSlashOverflows()
    ensures Faithful(Coarse)
    ensures NoOverflow(Start(THREE_STRONG), [FullSlash(1), FullSlash(2)], Coarse)
    ensures !NoOverflow(Start(THREE_STRONG), [FullSlash(1), FullSlash(2)] + [FullSlash(3)], Coarse)
    ensures var p := Run(Start(THREE_STRONG), [FullSlash(1), FullSlash(2)] + [FullSlash(3)], Coarse);
            !Conserved(p) && p.slashed == 3 * MAX_INT64 && p.store.total == 3 * MAX_INT64 - TWO_TO_64
  {
    hide FullSlash, Apply, Share, Conserved, Run, NoOverflow, StepFits, Slashable, WrapU64, Faithful, Coarse;
    var start := Start(THREE_STRONG);
    var one, two := [FullSlash(1)], [FullSlash(1), FullSlash(2)];
    RunNone(start, Coarse);
    RunStep(start, [], FullSlash(1), Coarse);
    RunStep(start, one, FullSlash(2), Coarse);
    RunStep(start, two, FullSlash(3), Coarse);
    assert [] + [FullSlash(1)] == one && one + [FullSlash(2)] == two;
    FullSlashStep(start, 1, Coarse);
    FullSlashStep(Run(start, one, Coarse), 2, Coarse);
    FullSlashStep(Run(start, two, Coarse), 3, Coarse);
    FullSlashFits(start.store, 1);
    FullSlashFits(Run(start, one, Coarse).store, 2);
    FullSlashFits(Run(start, two, Coarse).store, 3);
    NothingOverflows(start);
    NoOverflowStep(start, [], FullSlash(1), Coarse);
    NoOverflowStep(start, one, FullSlash(2), Coarse);
    NoOverflowStep(start, two, FullSlash(3), Coarse);
    WrapsOnce(3 * MAX_INT64);
    OverflowBreaksAccounts(THREE_STRONG, two, FullSlash(3), Coarse);
  }

  /** An amount that is no int64 is not taken: the power grows by what the amount lacks to 2^64, or
      wraps to a negative number. */
  lemma WideAmountsWrap(power: I64, amount: U64)
    requires power >= 0 && amount > MAX_INT64
    ensures SlashedPower(power, amount)
         == if power + TWO_TO_64 - amount <= MAX_INT64 then power + TWO_TO_64 - amount else power - amount
    ensures SlashedPower(power, amount) > power || SlashedPower(power, amount) < 0
  {
    CastWraps(amount);
    if power + TWO_TO_64 - amount > MAX_INT64 {
      CastWraps(power + TWO_TO_64 - amount);
    }
  }

  /** The next tick, accepted and voted through. */
  function Voted(msg: MsgTick): seq<Op> {
    [Tick(msg), PostTick(msg, Votes.Yes)]
  }

  lemma RunVoted(start: Protocol, ops: seq<Op>, msg: MsgTick, encode: Encoding)
    requires var s := Run(start, ops, encode).store;
             s.total != 0 && s.tick == map[] && s.tickCount < MAX_UINT64
             && msg == MsgTick(s.tickCount + 1, encode(s.buffer))
    ensures var s := Run(start, ops, encode).store;
            Run(start, ops + Voted(msg), encode).store
            == s.(tick := s.buffer, buffer := map[], total := 0, tickCount := s.tickCount + 1)
  {
    hide Run;
    RunStep(start, ops, Tick(msg), encode);
    RunStep(start, ops + [Tick(msg)], PostTick(msg, Votes.Yes), encode);
    assert ops + Voted(msg) == ops + [Tick(msg)] + [PostTick(msg, Votes.Yes)];
    var buffer := Run(start, ops, encode).store.buffer;
    assert map[] + buffer == buffer;
  }

  lemma RunAck(start: Protocol, ops: seq<Op>, sequence: nat, encode: Encoding)
    requires var s := Run(start, ops, encode).store;
             s.tick != map[] && s.tick.Keys <= s.stakers.Keys && sequence !in s.sequences
    ensures var s := Run(start, ops, encode).store;
            Run(start, ops + [PostTickAck(MsgTickAck(s.tickCount, sequence), Votes.Yes)], encode).store
            == s.(stakers := Slashed(s.stakers, s.tick), tick := map[], sequences := s.sequences + {sequence})
  {
    hide Run, SumOf;
    RunStep(start, ops, PostTickAck(MsgTickAck(Run(start, ops, encode).store.tickCount, sequence), Votes.Yes), encode);
  }

  lemma RunSlash(start: Protocol, ops: seq<Op>, op: Op, encode: Encoding)
    requires op.SlashInterim? && Slashable(Run(start, ops, encode).store, op.id)
    ensures Run(start, ops + [op], encode).store
         == AfterSlashInterim(Run(start, ops, encode).store, op.id, op.percent, op.jailPercent)
  {
    RunStep(start, ops, op, encode);
  }

  const ONE_STRONG: map<nat, Staker> := map[1 := Staker(MAX_INT64, false)]

  /** Two slashes of six tenths of the largest power. */
  const SIX_TENTHS: Op := SlashInterim(1, 600_000_000_000_000_000, PRECISION)
  const TWICE_SIX_TENTHS: map<nat, Info> := map[1 := Info(1, 11068046444225730968, true)]

  function WideRun(encode: Encoding): seq<Op> {
    [SIX_TENTHS, SIX_TENTHS] + Voted(MsgTick(1, encode(TWICE_SIX_TENTHS))) + [PostTickAck(MsgTickAck(1, 0), Votes.Yes)]
  }

  lemma SixTenths(s: Store)
    requires s.stakers == ONE_STRONG && (s.buffer == map[] || s.buffer == map[1 := Info(1, 5534023222112865484, false)])
    ensures Slashable(s, 1)
    ensures AfterSlashInterim(s, 1, SIX_TENTHS.percent, PRECISION)
         == s.(buffer := if s.buffer == map[] then map[1 := Info(1, 5534023222112865484, false)] else TWICE_SIX_TENTHS,
               total := WrapU64(s.total + 5534023222112865484))
  {
    assert Share(MAX_INT64, SIX_TENTHS.percent) == 5534023222112865484;
    assert Share(MAX_INT64, PRECISION) == MAX_INT64;
  }

  lemma WideSlash()
    ensures Slashed(ONE_STRONG, TWICE_SIX_TENTHS) == map[1 := Staker(-1844674407370955161, true)]
  {
    WideAmountsWrap(MAX_INT64, 11068046444225730968);
  }

  /** A run after which a slashed validator has a negative power. */
  lemma WideAmountRun(encode: Encoding)
    ensures Run(Start(ONE_STRONG), WideRun(encode), encode).store.stakers
         == map[1 := Staker(-1844674407370955161, true)]
  {
    hide Run, AfterSlashInterim, Slashable, Voted, Slashed;
    var start := Start(ONE_STRONG);
    RunNone(start, encode);
    SixTenths(start.store);
    RunSlash(start, [], SIX_TENTHS, encode);
    var one := [] + [SIX_TENTHS];
    SixTenths(Run(start, one, encode).store);
    RunSlash(start, one, SIX_TENTHS, encode);
    var two := one + [SIX_TENTHS];
    var msg := MsgTick(1, encode(TWICE_SIX_TENTHS));
    RunVoted(start, two, msg, encode);
    RunAck(start, two + Voted(msg), 0, encode);
    assert two == [SIX_TENTHS, SIX_TENTHS];
    WideSlash();
  }

  // ---------------------------------------------------------------- leaving jail

  /** An acknowledgement lets a jailed validator go exactly when the tick data has an entry for it
      that does not jail it. */
  lemma AckReleasesIff(s: Store, msg: MsgTickAck, vote: Votes.Vote, id: nat)
    requires PostTickAckPasses(s, msg, vote) && id in s.stakers && s.stakers[id].jailed
    ensures id in AfterPostTickAck(s, msg, vote).stakers
    ensures !AfterPostTickAck(s, msg, vote).stakers[id].jailed <==> id in s.tick && !s.tick[id].jailed
  {
  }

  const ONE_WEAK: map<nat, Staker> := map[1 := Staker(100, false)]

  /** Half of the power, with half of the power as the jail limit; and a hundredth. */
  const HALF: Op := SlashInterim(1, 500_000_000_000_000_000, 500_000_000_000_000_000)
  const HUNDREDTH: Op := SlashInterim(1, 10_000_000_000_000_000, 500_000_000_000_000_000)

  function ReleaseRun(encode: Encoding): seq<Op> {
    [HALF] + Voted(MsgTick(1, encode(map[1 := Info(1, 50, true)])))
    + [HUNDREDTH, PostTickAck(MsgTickAck(1, 0), Votes.Yes)] + Voted(MsgTick(2, encode(map[1 := Info(1, 1, false)])))
    + [PostTickAck(MsgTickAck(2, 1), Votes.Yes)]
  }

  lemma WeakSlash(s: Store)
    requires s.stakers == ONE_WEAK && s.buffer == map[] && s.total == 0
    ensures Slashable(s, 1)
    ensures AfterSlashInterim(s, 1, HALF.percent, HALF.jailPercent)
         == s.(buffer := map[1 := Info(1, 50, true)], total := 50)
    ensures AfterSlashInterim(s, 1, HUNDREDTH.percent, HUNDREDTH.jailPercent)
         == s.(buffer := map[1 := Info(1, 1, false)], total := 1)
  {
    assert Share(100, HALF.percent) == 50 && Share(100, HUNDREDTH.percent) == 1;
  }

  lemma WeakAcks()
    ensures Slashed(ONE_WEAK, map[1 := Info(1, 50, true)]) == map[1 := Staker(50, true)]
    ensures Slashed(map[1 := Staker(50, true)], map[1 := Info(1, 1, false)]) == map[1 := Staker(49, false)]
  {
  }

  /** A slash between a jailing tick and its acknowledgement sets the validator free: the second
      acknowledgement overwrites the flag of the first. */
  lemma SlashedOutOfJail(encode: Encoding)
    ensures var run, n := ReleaseRun(encode), |ReleaseRun(encode)|;
            && Run(Start(ONE_WEAK), run[..n - 1], encode).store.stakers == map[1 := Staker(50, true)]
            && Run(Start(ONE_WEAK), run, encode).store.stakers == map[1 := Staker(49, false)]
  {
    hide Run, AfterSlashInterim, Slashable, Slashed;
    var start := Start(ONE_WEAK);
    WeakAcks();
    RunNone(start, encode);
    WeakSlash(start.store);
    RunSlash(start, [], HALF, encode);
    var r1 := [] + [HALF];
    var m1 := MsgTick(1, encode(map[1 := Info(1, 50, true)]));
    RunVoted(start, r1, m1, encode);
    var r2 := r1 + Voted(m1);
    WeakSlash(Run(start, r2, encode).store);
    RunSlash(start, r2, HUNDREDTH, encode);
    var r3 := r2 + [HUNDREDTH];
    RunAck(start, r3, 0, encode);
    var r4 := r3 + [PostTickAck(MsgTickAck(1, 0), Votes.Yes)];
    var m2 := MsgTick(2, encode(map[1 := Info(1, 1, false)]));
    RunVoted(start, r4, m2, encode);
    var r5 := r4 + Voted(m2);
    RunAck(start, r5, 1, encode);
    assert ReleaseRun(encode) == r5 + [PostTickAck(MsgTickAck(2, 1), Votes.Yes)];
  }

  /** No slash while tick data waits for its acknowledgement, and restaking jails nobody. */
  predicate Quiet(s: Store, op: Op) {
    && (op.SlashInterim? ==> s.tick == map[])
    && (op.Restake? ==> forall k :: k in op.stakers && op.stakers[k].jailed ==> k in s.stakers && s.stakers[k].jailed)
  }

  ghost predicate QuietRun(p: Protocol, ops: seq<Op>, encode: Encoding) {
    ops == [] ||
    (QuietRun(p, ops[..|ops| - 1], encode) && Quiet(Run(p, ops[..|ops| - 1], encode).store, ops[|ops| - 1]))
  }

  /** Nothing pending would let a jailed validator go. */
  predicate Settled(s: Store) {
    && (s.tick != map[] ==> s.buffer == map[])
    && forall k :: k in s.stakers && s.stakers[k].jailed ==>
         (k in s.buffer ==> s.buffer[k].jailed) && (k in s.tick ==> s.tick[k].jailed)
  }

  lemma StepStaysSettled(p: Protocol, op: Op, encode: Encoding)
    requires Settled(p.store) && Quiet(p.store, op)
    ensures Settled(Apply(p, op, encode).store)
  {
  }

  lemma {:induction false} QuietRunsAreSettled(stakers: map<nat, Staker>, ops: seq<Op>, encode: Encoding)
    requires QuietRun(Start(stakers), ops, encode)
    ensures Settled(Run(Start(stakers), ops, encode).store)
  {
    if ops != [] {
      var n := |ops| - 1;
      QuietRunsAreSettled(stakers, ops[..n], encode);
      StepStaysSettled(Run(Start(stakers), ops[..n], encode), ops[n], encode);
    }
  }

  /** In such runs only restaking releases: no acknowledgement does. */
  lemma QuietRunsReleaseNobody(stakers: map<nat, Staker>, ops: seq<Op>, encode: Encoding, msg: MsgTickAck,
      vote: Votes.Vote)
    requires QuietRun(Start(stakers), ops, encode)
    ensures var s := Run(Start(stakers), ops, encode).store;
            forall k :: k in s.stakers && s.stakers[k].jailed ==>
              k in AfterPostTickAck(s, msg, vote).stakers && AfterPostTickAck(s, msg, vote).stakers[k].jailed
  {
    QuietRunsAreSettled(stakers, ops, encode);
  }
}
