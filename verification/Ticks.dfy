/** Interim slashing and the tick protocol (slashing/keeper.go, slashing/handler.go,
    slashing/side_handler.go): amounts gather in a buffer, a tick moves the buffer to the
    tick data, and its acknowledgement takes the amounts from the validators' powers. */
module Ticks {
  import opened GoInt
  import opened MapSums
  import opened SideTx

  /** The denominator of the 18-decimal fractions. */
  const PRECISION: int := 1_000_000_000_000_000_000

  datatype Info = Info(id: nat, amount: U64, jailed: bool)
  datatype Staker = Staker(power: I64, jailed: bool)
  datatype MsgTick = MsgTick(id: U64, bytes: seq<Byte>)
  datatype MsgTickAck = MsgTickAck(id: U64, sequence: nat)

  type Encoding = map<nat, Info> -> seq<Byte>

  datatype Store = Store(
    buffer: map<nat, Info>, total: U64, tick: map<nat, Info>, tickCount: U64,
    sequences: set<nat>, stakers: map<nat, Staker>)

  predicate Keyed(infos: map<nat, Info>) {
    forall k :: k in infos ==> infos[k].id == k
  }

  function Amounts(infos: map<nat, Info>): map<nat, nat> {
    map k | k in infos :: infos[k].amount
  }

  ghost function SumOf(infos: map<nat, Info>): nat {
    MapSum(Amounts(infos))
  }

  // ---------------------------------------------------------------- what each step does

  /** The power times a fraction of `percent` / 10^18, truncated, as an unsigned number. */
  function Share(power: I64, percent: nat): U64 {
    WrapU64(TruncDiv(power * percent, PRECISION))
  }

  /** The buffer entry after an interim slash; one that reaches the jail limit is jailed. */
  function Raised(buffer: map<nat, Info>, id: nat, amount: U64, jailLimit: U64): Info {
    var updated := WrapU64((if id in buffer then buffer[id].amount else 0) + amount);
    Info(id, updated, (id in buffer && buffer[id].jailed) || updated >= jailLimit)
  }

  function AfterSlashInterim(s: Store, id: nat, percent: nat, jailPercent: nat): Store {
    if id !in s.stakers then s
    else
      var power := s.stakers[id].power;
      var amount := Share(power, percent);
      var info := Raised(s.buffer, id, amount, Share(power, jailPercent));
      s.(buffer := s.buffer[id := info], total := WrapU64(s.total + amount))
  }

  /** The guard of both callers of SlashInterim: neither the store nor the buffer has it jailed. */
  predicate Slashable(s: Store, id: nat) {
    id in s.stakers && !s.stakers[id].jailed && !(id in s.buffer && s.buffer[id].jailed)
  }

  predicate TickPasses(s: Store, encode: Encoding, msg: MsgTick) {
    s.total != 0 && msg.id == WrapU64(s.tickCount + 1) && msg.bytes == encode(s.buffer) && s.tick == map[]
  }

  predicate PostTickPasses(s: Store, encode: Encoding, msg: MsgTick, vote: Vote) {
    vote == Yes && msg.id == WrapU64(s.tickCount + 1) && msg.bytes == encode(s.buffer)
  }

  /** The buffer is copied over the tick data and emptied. */
  function AfterPostTick(s: Store, encode: Encoding, msg: MsgTick, vote: Vote): Store {
    if PostTickPasses(s, encode, msg, vote) then
      s.(tick := s.tick + s.buffer, buffer := map[], total := 0, tickCount := WrapU64(s.tickCount + 1))
    else s
  }

  /** The power after a slash; the amount is cast to int64 first. */
  function SlashedPower(power: I64, amount: U64): I64 {
    if power >= Wrap64(amount) then Wrap64(power - Wrap64(amount)) else 0
  }

  lemma CastWraps(x: int)
    requires MAX_INT64 < x <= MAX_UINT64
    ensures Wrap64(x) == x - TWO_TO_64
  {
    DivModFromParts(x - MIN_INT64, 1, TWO_TO_64, x + MIN_INT64);
  }

  /** The power drops by the amount, but not below 0, exactly when the cast keeps the amount. */
  lemma SlashTakesAmount(power: I64, amount: U64)
    requires power >= 0
    ensures SlashedPower(power, amount) == (if amount <= power then power - amount else 0) <==> amount <= MAX_INT64
  {
    if amount > MAX_INT64 {
      CastWraps(amount);
      var rest: int := power - (amount - TWO_TO_64);
      if rest > MAX_INT64 {
        CastWraps(rest);
      }
    }
  }

  function Slashed(stakers: map<nat, Staker>, infos: map<nat, Info>): map<nat, Staker> {
    map k | k in stakers ::
      if k in infos then Staker(SlashedPower(stakers[k].power, infos[k].amount), infos[k].jailed) else stakers[k]
  }

  predicate TickAckPasses(s: Store, msg: MsgTickAck) {
    msg.sequence !in s.sequences && msg.id == s.tickCount
  }

  predicate PostTickAckPasses(s: Store, msg: MsgTickAck, vote: Vote) {
    && vote == Yes && TickAckPasses(s, msg)
    && s.tick != map[] && s.tick.Keys <= s.stakers.Keys
  }

  function AfterPostTickAck(s: Store, msg: MsgTickAck, vote: Vote): Store {
    if PostTickAckPasses(s, msg, vote) then
      s.(stakers := Slashed(s.stakers, s.tick), tick := map[], sequences := s.sequences + {msg.sequence})
    else s
  }

  /** The slashing store and the powers it changes. */
  class Keeper {
    const encode: Encoding
    var buffer: map<nat, Info>
    var total: U64
    var tick: map<nat, Info>
    var tickCount: U64
    var sequences: set<nat>
    var stakers: map<nat, Staker>

    ghost function Now(): Store
      reads this
    {
      Store(buffer, total, tick, tickCount, sequences, stakers)
    }

    ghost predicate Valid()
      reads this
    {
      Keyed(buffer) && Keyed(tick)
    }

    constructor (encode: Encoding, stakers: map<nat, Staker>)
      ensures Valid() && this.encode == encode && Now() == Store(map[], 0, map[], 0, {}, stakers)
    {
      this.encode, buffer, total, tick, tickCount, sequences := encode, map[], 0, map[], 0, {};
      this.stakers := stakers;
    }

    /** The code panics when one of the two shares of the power is not an int64. */
    method SlashInterim(id: nat, percent: nat, jailPercent: nat) returns (amount: U64)
      requires Valid()
      requires id in stakers ==> InInt64(TruncDiv(stakers[id].power * percent, PRECISION))
      requires id in stakers ==> InInt64(TruncDiv(stakers[id].power * jailPercent, PRECISION))
      modifies this`buffer, this`total
      ensures Valid() && Now() == AfterSlashInterim(old(Now()), id, percent, jailPercent)
      ensures amount == if id in stakers then Share(stakers[id].power, percent) else 0
      ensures id !in stakers ==> Now() == old(Now())
      ensures id in stakers ==>
        && id in buffer && buffer - {id} == old(buffer) - {id} && total == WrapU64(old(total) as int + amount)
        && buffer[id].amount == WrapU64((if id in old(buffer) then old(buffer)[id].amount else 0) as int + amount)
        && (buffer[id].jailed <==> || (id in old(buffer) && old(buffer)[id].jailed)
                                   || buffer[id].amount >= Share(stakers[id].power, jailPercent))
    {
      hide TruncDiv, WrapU64;
      if id !in stakers {
        return 0;
      }
      var valPower := stakers[id].power;
      amount := WrapU64(TruncDiv(valPower * percent, PRECISION));
      var info;
      if id in buffer {
        info := buffer[id];
        info := info.(amount := WrapU64(info.amount as int + amount));
      } else {
        info := Info(id, amount, false);
      }
      if info.amount >= Share(valPower, jailPercent) {
        info := info.(jailed := true);
      }
      buffer := buffer[id := info];
      total := WrapU64(total as int + amount);
    }

    /** How HandleValidatorSignature and HandleDoubleSign slash a validator they have found. */
    method SlashUnlessJailed(id: nat, percent: nat, jailPercent: nat) returns (amount: U64)
      requires Valid() && id in stakers
      requires Slashable(Now(), id) ==> InInt64(TruncDiv(stakers[id].power * percent, PRECISION))
      requires Slashable(Now(), id) ==> InInt64(TruncDiv(stakers[id].power * jailPercent, PRECISION))
      modifies this`buffer, this`total
      ensures Valid()
      ensures Now() == if old(Slashable(Now(), id)) then AfterSlashInterim(old(Now()), id, percent, jailPercent)
                       else old(Now())
      ensures amount == if old(Slashable(Now(), id)) then Share(stakers[id].power, percent) else 0
    {
      amount := 0;
      var found := id in buffer;
      if stakers[id].jailed || (found && buffer[id].jailed) {
      } else {
        amount := SlashInterim(id, percent, jailPercent);
      }
    }

    method HandlerMsgTick(msg: MsgTick) returns (ok: bool)
      ensures ok <==> TickPasses(Now(), encode, msg)
      ensures ok <==> && total > 0 && tick == map[] && msg.bytes == encode(buffer)
                      && msg.id == WrapU64(tickCount as int + 1)
    {
      if total == 0 {
        return false;
      }
      if msg.id != WrapU64(tickCount as int + 1) {
        return false;
      }
      if encode(buffer) != msg.bytes {
        return false;
      }
      return |tick| == 0;
    }

    method CopyBufferValSlashingInfosToTickData()
      requires Valid()
      modifies this`tick
      ensures Valid() && tick == old(tick) + buffer
    {
      var ids := buffer.Keys;
      while ids != {}
        invariant ids <= buffer.Keys
        invariant tick == old(tick) + (buffer - ids)
        decreases ids
      {
        var id :| id in ids;
        var info := buffer[id];
        assert buffer - (ids - {id}) == (buffer - ids)[id := info];
        tick := tick[info.id := info];
        ids := ids - {id};
      }
      assert buffer - {} == buffer;
    }

    method FlushBufferValSlashingInfos()
      requires Valid()
      modifies this`buffer
      ensures buffer == map[]
    {
      var infos := buffer;
      var ids := infos.Keys;
      while ids != {}
        invariant ids <= infos.Keys && buffer.Keys == ids
        decreases ids
      {
        var id :| id in ids;
        buffer := buffer - {infos[id].id};
        ids := ids - {id};
      }
    }

    method PostHandleMsgTick(msg: MsgTick, vote: Vote) returns (ok: bool)
      requires Valid()
      modifies this`tick, this`buffer, this`total, this`tickCount
      ensures ok <==> old(PostTickPasses(Now(), encode, msg, vote))
      ensures ok <==> vote == Yes && msg.bytes == encode(old(buffer)) && msg.id == WrapU64(old(tickCount) as int + 1)
      ensures ok ==> tick == old(tick) + old(buffer) && buffer == map[] && total == 0 && tickCount == msg.id
      ensures !ok ==> Now() == old(Now())
      ensures Valid() && Now() == AfterPostTick(old(Now()), encode, msg, vote)
    {
      if vote != Yes {
        return false;
      }
      if msg.id != WrapU64(tickCount as int + 1) {
        return false;
      }
      if encode(buffer) != msg.bytes {
        return false;
      }
      CopyBufferValSlashingInfosToTickData();
      FlushBufferValSlashingInfos();
      total := 0;
      tickCount := WrapU64(tickCount as int + 1);
      return true;
    }

    method HandleMsgTickAck(msg: MsgTickAck) returns (ok: bool)
      ensures ok <==> TickAckPasses(Now(), msg)
      ensures ok <==> msg.sequence !in sequences && msg.id == tickCount
    {
      if msg.sequence in sequences {
        return false;
      }
      return msg.id == tickCount;
    }

    /** staking/keeper.go Slash. */
    method Slash(info: Info) returns (ok: bool)
      modifies this`stakers
      ensures ok <==> info.id in old(stakers)
      ensures !ok ==> stakers == old(stakers)
      ensures ok ==> var power := SlashedPower(old(stakers)[info.id].power, info.amount);
                     stakers == old(stakers)[info.id := Staker(power, info.jailed)]
    {
      if info.id !in stakers {
        return false;
      }
      var validator := stakers[info.id];
      var updatedPower: I64 := 0;
      if validator.power >= Wrap64(info.amount) {
        updatedPower := Wrap64(validator.power - Wrap64(info.amount));
      }
      validator := validator.(power := updatedPower);
      validator := validator.(jailed := info.jailed);
      stakers := stakers[info.id := validator];
      return true;
    }

    /** Stops at the first validator that is not found, with the others of `done` already slashed. */
    method SlashAndJailTickValSlashingInfos() returns (ok: bool, ghost done: map<nat, Info>)
      requires Valid()
      modifies this`stakers
      ensures ok <==> tick.Keys <= old(stakers.Keys)
      ensures done.Items <= tick.Items && done.Keys <= old(stakers.Keys) && (ok ==> done == tick)
      ensures stakers == Slashed(old(stakers), done)
    {
      var ids := tick.Keys;
      ghost var was := stakers;
      done := tick - ids;
      while ids != {}
        invariant ids <= tick.Keys && tick.Keys - ids <= was.Keys
        invariant done == tick - ids && stakers == Slashed(was, done)
        decreases ids
      {
        var id :| id in ids;
        ok := Slash(tick[id]);
        if !ok {
          return;
        }
        done := tick - (ids - {id});
        ids := ids - {id};
      }
      assert tick - {} == tick;
      ok := true;
    }

    method FlushTickValSlashingInfos()
      requires Valid()
      modifies this`tick
      ensures tick == map[]
    {
      var infos := tick;
      var ids := infos.Keys;
      while ids != {}
        invariant ids <= infos.Keys && tick.Keys == ids
        decreases ids
      {
        var id :| id in ids;
        tick := tick - {infos[id].id};
        ids := ids - {id};
      }
    }

    /** A refusal undoes the slashes made before it. */
    method PostHandleMsgTickAck(msg: MsgTickAck, vote: Vote) returns (ok: bool)
      requires Valid()
      modifies this`stakers, this`tick, this`sequences
      ensures ok <==> old(PostTickAckPasses(Now(), msg, vote))
      ensures ok <==> && vote == Yes && msg.sequence !in old(sequences) && msg.id == tickCount
                      && old(tick) != map[] && old(tick).Keys <= old(stakers).Keys
      ensures ok ==> tick == map[] && sequences == old(sequences) + {msg.sequence}
      ensures !ok ==> Now() == old(Now())
      ensures Valid() && Now() == AfterPostTickAck(old(Now()), msg, vote)
    {
      if vote != Yes {
        return false;
      }
      if msg.id != tickCount {
        return false;
      }
      if msg.sequence in sequences {
        return false;
      }
      if |tick| == 0 {
        return false;
      }
      var before := stakers;
      ghost var done;
      ok, done := SlashAndJailTickValSlashingInfos();
      if !ok {
        stakers := before;
        return;
      }
      FlushTickValSlashingInfos();
      sequences := sequences + {msg.sequence};
    }
  }

  // ---------------------------------------------------------------- slashes in numbers

  /** The share is the fraction of the power, rounded toward zero, read as an unsigned number. */
  lemma ShareIsFraction(power: I64, percent: nat)
    requires InInt64(TruncDiv(power * percent, PRECISION))
    ensures QuotientTowardZero(power * percent, PRECISION,
              if Share(power, percent) <= MAX_INT64 then Share(power, percent) else Share(power, percent) - TWO_TO_64)
  {
    var q := TruncDiv(power * percent, PRECISION);
    TruncDivIsQuotient(power * percent, PRECISION);
    if q < 0 {
      DivModFromParts(q, -1, TWO_TO_64, q + TWO_TO_64);
    }
  }

  lemma FractionFits(power: I64, percent: nat)
    requires power >= 0 && power * percent < PRECISION * (MAX_INT64 + 1)
    ensures Share(power, percent) <= MAX_INT64
    ensures Share(power, percent) * PRECISION <= power * percent < Share(power, percent) * PRECISION + PRECISION
  {
    var x := power * percent;
    ProductSign(power, percent);
    Remainder(x, PRECISION);
    DivOrdered(x, PRECISION * (MAX_INT64 + 1) - 1, PRECISION);
    DivOrdered(0, x, PRECISION);
  }

  lemma ReachedIff(amount: nat, limit: nat, x: nat)
    requires limit * PRECISION <= x < limit * PRECISION + PRECISION
    ensures amount >= limit <==> x < amount * PRECISION + PRECISION
  {
  }

  /** One guarded slash: if the validator is known and jailed neither in the store nor in the buffer, its entry
      and the total grow by the fraction of its power, and it is jailed exactly when its entry has come to the
      other fraction; if not, nothing happens. */
  lemma SlashInNumbers(s: Store, id: nat, percent: nat, jailPercent: nat)
    requires id in s.stakers ==> s.stakers[id].power >= 0
    requires id in s.stakers ==> s.stakers[id].power * percent < PRECISION * (MAX_INT64 + 1)
    requires id in s.stakers ==> s.stakers[id].power * jailPercent < PRECISION * (MAX_INT64 + 1)
    requires id in s.stakers ==> s.total + Share(s.stakers[id].power, percent) <= MAX_UINT64
    requires id in s.stakers && id in s.buffer ==>
               s.buffer[id].amount + Share(s.stakers[id].power, percent) <= MAX_UINT64
    ensures var t := if Slashable(s, id) then AfterSlashInterim(s, id, percent, jailPercent) else s;
            var was := if id in s.buffer then s.buffer[id].amount else 0;
            if id in s.stakers && !s.stakers[id].jailed && (id in s.buffer ==> !s.buffer[id].jailed) then
              && id in t.buffer && t.buffer - {id} == s.buffer - {id} && t.buffer[id].id == id
              && t == s.(buffer := t.buffer, total := t.total)
              && t.total - s.total == t.buffer[id].amount - was >= 0
              && (t.total - s.total) * PRECISION <= s.stakers[id].power * percent
              && s.stakers[id].power * percent < (t.total - s.total) * PRECISION + PRECISION
              && (t.buffer[id].jailed <==>
                   s.stakers[id].power * jailPercent < t.buffer[id].amount * PRECISION + PRECISION)
            else t == s
  {
    if Slashable(s, id) {
      FractionFits(s.stakers[id].power, percent);
      FractionFits(s.stakers[id].power, jailPercent);
      var limit := Share(s.stakers[id].power, jailPercent);
      ReachedIff(AfterSlashInterim(s, id, percent, jailPercent).buffer[id].amount, limit,
        s.stakers[id].power * jailPercent);
    }
  }

  /** What an accepted acknowledgement does to every validator: those of the tick lose the amount, as long as it
      is an int64, but not more than they have, and are jailed if and only if the tick says so; the others keep
      what they have. */
  lemma AckInNumbers(s: Store, msg: MsgTickAck, vote: Vote, id: nat)
    requires PostTickAckPasses(s, msg, vote) && id in s.stakers
    ensures var t := AfterPostTickAck(s, msg, vote);
            && t.stakers.Keys == s.stakers.Keys && t.tick == map[] && t.sequences == s.sequences + {msg.sequence}
            && t.buffer == s.buffer && t.total == s.total && t.tickCount == s.tickCount
            && (id !in s.tick ==> t.stakers[id] == s.stakers[id])
            && (id in s.tick ==> t.stakers[id].jailed == s.tick[id].jailed)
            && (id in s.tick && s.stakers[id].power >= 0 && s.tick[id].amount <= MAX_INT64 ==>
                 t.stakers[id].power ==
                   if s.tick[id].amount <= s.stakers[id].power then s.stakers[id].power - s.tick[id].amount else 0)
  {
    if id in s.tick && s.stakers[id].power >= 0 {
      SlashTakesAmount(s.stakers[id].power, s.tick[id].amount);
    }
  }

  // ---------------------------------------------------------------- runs of the protocol

  /** The store, the ticks accepted by the handler and not yet voted on, and the accounts:
      all that was slashed, all that was acknowledged, and how many ticks were. */
  datatype Protocol = Protocol(store: Store, inFlight: multiset<MsgTick>, slashed: nat, acked: nat, acks: nat)

  datatype Op =
    | SlashInterim(id: nat, percent: nat, jailPercent: nat)
    | Tick(tick: MsgTick)
    | PostTick(voted: MsgTick, vote: Vote)
    | PostTickAck(ack: MsgTickAck, ackVote: Vote)
    | Restake(stakers: map<nat, Staker>)

  ghost function Apply(p: Protocol, op: Op, encode: Encoding): Protocol {
    var s := p.store;
    match op
    case SlashInterim(id, percent, jailPercent) =>
      if Slashable(s, id) then
        p.(store := AfterSlashInterim(s, id, percent, jailPercent),
           slashed := p.slashed + Share(s.stakers[id].power, percent))
      else p
    case Tick(msg) => if TickPasses(s, encode, msg) then p.(inFlight := p.inFlight + multiset{msg}) else p
    case PostTick(msg, vote) =>
      if msg in p.inFlight then
        p.(store := AfterPostTick(s, encode, msg, vote), inFlight := p.inFlight - multiset{msg})
      else p
    case PostTickAck(msg, vote) =>
      if PostTickAckPasses(s, msg, vote) then
        p.(store := AfterPostTickAck(s, msg, vote), acked := p.acked + SumOf(s.tick), acks := p.acks + 1)
      else p
    case Restake(stakers) => p.(store := s.(stakers := stakers))
  }

  ghost function Run(p: Protocol, ops: seq<Op>, encode: Encoding): Protocol {
    if ops == [] then p else Apply(Run(p, ops[..|ops| - 1], encode), ops[|ops| - 1], encode)
  }

  function Start(stakers: map<nat, Staker>): Protocol {
    Protocol(Store(map[], 0, map[], 0, {}, stakers), multiset{}, 0, 0, 0)
  }

  /** Only the empty buffer is encoded like the empty buffer. */
  ghost predicate Faithful(encode: Encoding) {
    forall b :: encode(b) == encode(map[]) ==> b == map[]
  }

  /** The amounts: nothing is lost between buffer, tick data and acknowledgement. */
  ghost predicate Conserved(p: Protocol) {
    && p.store.total == SumOf(p.store.buffer)
    && p.slashed == SumOf(p.store.buffer) + SumOf(p.store.tick) + p.acked
  }

  /** A tick in flight with the next number was accepted with the present, empty tick data. */
  predicate FlightIsSafe(p: Protocol, encode: Encoding, msg: MsgTick) {
    && msg.id <= p.store.tickCount + 1
    && (msg.id == p.store.tickCount + 1 ==> p.store.tick == map[])
    && msg.bytes != encode(map[])
  }

  ghost predicate Sound(p: Protocol, encode: Encoding) {
    && Keyed(p.store.buffer) && Keyed(p.store.tick)
    && Conserved(p)
    && (forall msg :: msg in p.inFlight ==> FlightIsSafe(p, encode, msg))
    && p.store.tickCount == p.acks + if p.store.tick == map[] then 0 else 1
  }

  /** The post-handler does not check that the tick data is empty; it is. */
  lemma TickOverwritesNothing(p: Protocol, encode: Encoding, msg: MsgTick, vote: Vote)
    requires Sound(p, encode) && p.store.tickCount < MAX_UINT64
    requires msg in p.inFlight && PostTickPasses(p.store, encode, msg, vote)
    ensures p.store.tick == map[]
    ensures AfterPostTick(p.store, encode, msg, vote).tick == p.store.buffer != map[]
  {
    assert FlightIsSafe(p, encode, msg);
    assert map[] + p.store.buffer == p.store.buffer;
  }

  lemma RaisedSum(infos: map<nat, Info>, id: nat, info: Info)
    ensures SumOf(infos[id := info]) == SumOf(infos) - (if id in infos then infos[id].amount else 0) + info.amount
  {
    MapSumInsert(Amounts(infos), id, info.amount);
    assert Amounts(infos[id := info]) == Amounts(infos)[id := info.amount];
  }

  lemma EntryWithinSum(infos: map<nat, Info>, id: nat)
    requires id in infos
    ensures infos[id].amount <= SumOf(infos)
  {
    MapSumRemove(Amounts(infos), id);
  }

  /** The running total stays an uint64. */
  predicate StepFits(s: Store, op: Op) {
    op.SlashInterim? && Slashable(s, op.id) ==> s.total + Share(s.stakers[op.id].power, op.percent) <= MAX_UINT64
  }

  lemma WrapsOnce(x: int)
    requires MAX_UINT64 < x <= 2 * MAX_UINT64
    ensures WrapU64(x) == x - TWO_TO_64
  {
    DivModFromParts(x, 1, TWO_TO_64, x - TWO_TO_64);
  }

  /** A slash keeps the accounts exactly when the running total does not wrap around. */
  lemma SlashConservesIff(p: Protocol, encode: Encoding, op: Op)
    requires Sound(p, encode) && op.SlashInterim?
    ensures Conserved(Apply(p, op, encode)) <==> StepFits(p.store, op)
  {
    var s, id := p.store, op.id;
    if Slashable(s, id) {
      var amount := Share(s.stakers[id].power, op.percent);
      if id in s.buffer {
        EntryWithinSum(s.buffer, id);
      }
      var entry := if id in s.buffer then s.buffer[id].amount else 0;
      RaisedSum(s.buffer, id, Raised(s.buffer, id, amount, Share(s.stakers[id].power, op.jailPercent)));
      if s.total + amount > MAX_UINT64 {
        WrapsOnce(s.total + amount);
        if entry + amount > MAX_UINT64 {
          WrapsOnce(entry + amount);
        }
      }
    }
  }

  lemma SlashKeepsSound(p: Protocol, encode: Encoding, op: Op)
    requires Sound(p, encode) && op.SlashInterim? && StepFits(p.store, op)
    ensures Sound(Apply(p, op, encode), encode)
  {
    var q := Apply(p, op, encode);
    SlashConservesIff(p, encode, op);
    forall msg | msg in q.inFlight
      ensures FlightIsSafe(q, encode, msg)
    {
      assert FlightIsSafe(p, encode, msg);
    }
  }

  lemma EmptySum(infos: map<nat, Info>)
    requires infos == map[]
    ensures SumOf(infos) == 0
  {
    assert Amounts(infos) == map[];
  }

  lemma TickKeepsSound(p: Protocol, encode: Encoding, msg: MsgTick)
    requires Sound(p, encode) && Faithful(encode) && p.store.tickCount < MAX_UINT64
    ensures Sound(Apply(p, Tick(msg), encode), encode)
  {
    var q := Apply(p, Tick(msg), encode);
    if TickPasses(p.store, encode, msg) {
      if p.store.buffer == map[] {
        EmptySum(p.store.buffer);
      }
      forall m | m in q.inFlight
        ensures FlightIsSafe(q, encode, m)
      {
        assert m == msg || FlightIsSafe(p, encode, m);
      }
    }
  }

  lemma PostTickKeepsSound(p: Protocol, encode: Encoding, msg: MsgTick, vote: Vote)
    requires Sound(p, encode) && p.store.tickCount < MAX_UINT64
    ensures Sound(Apply(p, PostTick(msg, vote), encode), encode)
  {
    var q := Apply(p, PostTick(msg, vote), encode);
    if msg in p.inFlight {
      if PostTickPasses(p.store, encode, msg, vote) {
        TickOverwritesNothing(p, encode, msg, vote);
        EmptySum(p.store.tick);
        EmptySum(q.store.buffer);
        assert Conserved(q);
      }
      forall m | m in q.inFlight
        ensures FlightIsSafe(q, encode, m)
      {
        assert FlightIsSafe(p, encode, m);
      }
    }
  }

  lemma PostTickAckKeepsSound(p: Protocol, encode: Encoding, msg: MsgTickAck, vote: Vote)
    requires Sound(p, encode)
    ensures Sound(Apply(p, PostTickAck(msg, vote), encode), encode)
  {
    var q := Apply(p, PostTickAck(msg, vote), encode);
    if PostTickAckPasses(p.store, msg, vote) {
      EmptySum(q.store.tick);
      forall m | m in q.inFlight
        ensures FlightIsSafe(q, encode, m)
      {
        assert FlightIsSafe(p, encode, m);
      }
    }
  }

  lemma StepKeepsSound(p: Protocol, op: Op, encode: Encoding)
    requires Sound(p, encode) && Faithful(encode) && p.store.tickCount < MAX_UINT64
    requires StepFits(p.store, op)
    ensures Sound(Apply(p, op, encode), encode)
    ensures Apply(p, op, encode).store.tickCount <= p.store.tickCount + 1
  {
    match op
    case SlashInterim(id, percent, jailPercent) => SlashKeepsSound(p, encode, op);
    case Tick(msg) => TickKeepsSound(p, encode, msg);
    case PostTick(msg, vote) => PostTickKeepsSound(p, encode, msg, vote);
    case PostTickAck(msg, vote) => PostTickAckKeepsSound(p, encode, msg, vote);
    case Restake(stakers) =>
      var q := Apply(p, op, encode);
      forall m | m in q.inFlight
        ensures FlightIsSafe(q, encode, m)
      {
        assert FlightIsSafe(p, encode, m);
      }
  }

  /** No running total of the run leaves uint64. */
  ghost predicate NoOverflow(p: Protocol, ops: seq<Op>, encode: Encoding) {
    ops == [] ||
    (NoOverflow(p, ops[..|ops| - 1], encode) && StepFits(Run(p, ops[..|ops| - 1], encode).store, ops[|ops| - 1]))
  }

  lemma {:induction false} RunsAreSound(stakers: map<nat, Staker>, ops: seq<Op>, encode: Encoding)
    requires Faithful(encode) && |ops| <= MAX_UINT64 && NoOverflow(Start(stakers), ops, encode)
    ensures Sound(Run(Start(stakers), ops, encode), encode)
    ensures Run(Start(stakers), ops, encode).store.tickCount <= |ops|
  {
    if ops == [] {
      EmptySum(map[]);
    } else {
      var n := |ops| - 1;
      RunsAreSound(stakers, ops[..n], encode);
      StepKeepsSound(Run(Start(stakers), ops[..n], encode), ops[n], encode);
    }
  }

  /** Conservation over every run and every interleaving: what was slashed is in the buffer, in
      the pending tick, or acknowledged; and every tick but the pending one has been
      acknowledged, once. */
  lemma SlashesAreConserved(stakers: map<nat, Staker>, ops: seq<Op>, encode: Encoding)
    requires Faithful(encode) && |ops| <= MAX_UINT64 && NoOverflow(Start(stakers), ops, encode)
    ensures var p := Run(Start(stakers), ops, encode);
            && p.store.total == SumOf(p.store.buffer)
            && p.slashed == SumOf(p.store.buffer) + SumOf(p.store.tick) + p.acked
            && p.acks <= p.store.tickCount <= p.acks + 1
            && (p.store.tickCount == p.acks <==> p.store.tick == map[])
  {
    hide Run, NoOverflow, Start, SumOf;
    RunsAreSound(stakers, ops, encode);
  }

  /** A tick is accepted exactly when something was slashed since the last one, every earlier one has been
      acknowledged, and the message spells the buffer under the next number. */
  lemma TickPassesIff(stakers: map<nat, Staker>, ops: seq<Op>, encode: Encoding, msg: MsgTick)
    requires Faithful(encode) && |ops| < MAX_UINT64 && NoOverflow(Start(stakers), ops, encode)
    ensures var p := Run(Start(stakers), ops, encode);
            TickPasses(p.store, encode, msg)
            <==> p.slashed > p.acked && p.store.tickCount == p.acks
                 && msg.id == p.acks + 1 && msg.bytes == encode(p.store.buffer)
  {
    hide Run, NoOverflow, Start, SumOf;
    RunsAreSound(stakers, ops, encode);
    var p := Run(Start(stakers), ops, encode);
    if p.store.tick == map[] {
      EmptySum(p.store.tick);
    }
  }

  /** The first slash that makes the running total wrap around breaks the accounts. */
  lemma OverflowBreaksAccounts(stakers: map<nat, Staker>, ops: seq<Op>, op: Op, encode: Encoding)
    requires Faithful(encode) && |ops| <= MAX_UINT64 && NoOverflow(Start(stakers), ops, encode)
    requires !NoOverflow(Start(stakers), ops + [op], encode)
    ensures !Conserved(Run(Start(stakers), ops + [op], encode))
  {
    RunsAreSound(stakers, ops, encode);
    assert (ops + [op])[..|ops|] == ops;
    SlashConservesIff(Run(Start(stakers), ops, encode), encode, op);
  }
}
