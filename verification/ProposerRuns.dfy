/** What holds over every run of a validator set (types/validator-set.go): priorities stay in a
    fixed range and nothing clips. The rounds inside one call of IncrementProposerPriority are
    fair. */
module ProposerRuns {
  import opened GoInt
  import opened Priorities
  import opened Validators
  import opened ChangeSets
  import opened ValidatorSets

  /** The lists a validator set can hold. */
  predicate Good(vs: seq<Validator>) {
    && Sorted(vs) && AllPositive(vs)
    && TotalPower(vs) <= MAX_TOTAL_POWER
    && InBounds(PrioritiesOf(vs))
  }

  datatype Op = Increment | Update(changes: seq<Validator>)

  /** Rescaling and centring leave a spread of at most 2P and a sum below the length. */
  lemma GoodIsLevelled(vs: seq<Validator>)
    requires Good(vs) && vs != []
    ensures Good(Normalised(vs)) && TotalPower(Normalised(vs)) == TotalPower(vs)
    ensures Levelled(PrioritiesOf(Normalised(vs)), TotalPower(vs))
    ensures Rotatable(Normalised(vs))
  {
    NormaliseIsSafe(vs, TotalPower(vs));
    LevelledIsRotatable(Normalised(vs));
  }

  lemma AcceptedIsGood(vs: seq<Validator>, changes: seq<Validator>)
    requires Good(vs) && changes != [] && Accepts(vs, changes, true)
    ensures Updatable(vs, changes) && Good(Updated(vs, changes))
    ensures Levelled(PrioritiesOf(Updated(vs, changes)), TotalPower(Updated(vs, changes)))
  {
    LastTotalFits(vs, changes, Updates(changes));
    ApplyingIsSafe(vs, changes);
    GoodIsLevelled(ListOf(Target(vs, changes)));
  }

  /** One call of IncrementProposerPriority(1) or UpdateWithChangeSet; an increment of the
      empty set panics in the code and does nothing here. */
  ghost function Step(vs: seq<Validator>, op: Op): seq<Validator>
    requires Good(vs)
  {
    match op
    case Increment =>
      if vs == [] then vs
      else
        GoodIsLevelled(vs);
        Rotated(Normalised(vs), 1)
    case Update(changes) =>
      if changes != [] && Accepts(vs, changes, true) then
        AcceptedIsGood(vs, changes);
        Updated(vs, changes)
      else vs
  }

  lemma StepKeepsGood(vs: seq<Validator>, op: Op)
    requires Good(vs)
    ensures Good(Step(vs, op))
  {
    match op
    case Increment =>
      if vs != [] {
        GoodIsLevelled(vs);
        RotatedKeeps(Normalised(vs), 1);
        OneRoundIsBounded(Normalised(vs));
      }
    case Update(changes) =>
      if changes != [] && Accepts(vs, changes, true) {
        AcceptedIsGood(vs, changes);
      }
  }

  ghost function Run(vs: seq<Validator>, ops: seq<Op>): (r: seq<Validator>)
    requires Good(vs)
    ensures Good(r)
    decreases |ops|
  {
    if ops == [] then vs
    else
      StepKeepsGood(vs, ops[0]);
      Run(Step(vs, ops[0]), ops[1..])
  }

  /** The next increment starts from levelled priorities and its saturating additions are
      plain additions. */
  ghost predicate NextIsPlain(now: seq<Validator>) {
    now != [] ==>
      var ps, ws, total := PrioritiesOf(Normalised(now)), PowersIn(now), TotalPower(now);
      && Levelled(ps, total) && AllInt64(ps) && AllInt64(ws) && InInt64(total)
      && (forall i :: 0 <= i < |ps| ==> InInt64(ps[i] + ws[i]))
      && ClippedTurns(ps, ws, total, 1) == Turns(ps, ws, total, 1)
  }

  lemma GoodIsPlain(now: seq<Validator>)
    requires Good(now)
    ensures NextIsPlain(now)
  {
    if now != [] {
      var ps, ws, total := PrioritiesOf(Normalised(now)), PowersIn(now), TotalPower(now);
      GoodIsLevelled(now);
      PowersAreInt64(now);
      PowersWithinTotal(ws, total);
      TotalIsPositive(now);
      NothingClips(ps, ws, total, 1);
    }
  }

  /** In every state a run reaches nothing clips. */
  lemma NothingClipsInAnyRun(vs: seq<Validator>, ops: seq<Op>)
    requires Good(vs)
    ensures NextIsPlain(Run(vs, ops))
  {
    GoodIsPlain(Run(vs, ops));
  }

  /** The rotation over any number of rounds of one call: each validator's priority is its
      start plus what it gained minus what it paid, and it proposes in proportion to its
      power, up to a constant. */
  lemma RotationIsFair(vs: seq<Validator>, times: nat, i: nat)
    requires Good(vs) && i < |vs|
    requires times <= 1 || |vs| * (2 * TotalPower(vs) + 1) + TotalPower(vs) <= MAX_INT64
    ensures Rotatable(Normalised(vs))
    ensures var start := Normalised(vs);
            var total, wins := TotalPower(vs), Wins(PrioritiesOf(start), PowersIn(vs), TotalPower(vs), times, i);
            && Rotated(start, times)[i].priority == start[i].priority + times * vs[i].power - wins * total
            && wins * total <= times * vs[i].power + 4 * total
            && wins * total > times * vs[i].power - |vs| * (2 * total + 1)
  {
    hide Wins, Turns, Levelled, Rescaled, Centred;
    GoodIsLevelled(vs);
    PowersAreInt64(vs);
    TotalIsPositive(vs);
    var ps, ws, total := PrioritiesOf(Normalised(vs)), PowersIn(vs), TotalPower(vs);
    assert PowersIn(Normalised(vs)) == ws by {
      PrioritiesDoNotMatter(vs, Centred(Rescaled(PrioritiesOf(vs), 2 * total)));
    }
    NothingClips(ps, ws, total, times);
    Ledger(ps, ws, total, times, i);
    NobodyIsFavoured(ps, ws, total, times, i);
    NobodyIsNeglected(ps, ws, total, times, i);
  }

  lemma NormalisedPowers(vs: seq<Validator>)
    requires vs != []
    ensures |Normalised(vs)| == |vs|
    ensures PowersIn(Normalised(vs)) == PowersIn(vs) && TotalPower(Normalised(vs)) == TotalPower(vs)
  {
    PrioritiesDoNotMatter(vs, Centred(Rescaled(PrioritiesOf(vs), 2 * TotalPower(vs))));
  }

  lemma RotatedParts(vs: seq<Validator>, times: nat)
    requires Rotatable(vs)
    ensures Rotatable(Rotated(vs, times))
    ensures PrioritiesOf(Rotated(vs, times)) == ClippedTurns(PrioritiesOf(vs), PowersIn(vs), TotalPower(vs), times)
    ensures PowersIn(Rotated(vs, times)) == PowersIn(vs)
  {
    RotatedKeeps(vs, times);
    PrioritiesDoNotMatter(vs, ClippedTurns(PrioritiesOf(vs), PowersIn(vs), TotalPower(vs), times));
  }

  /** The proposer after `times` rounds is the winner of the last of the rounds counted above. */
  lemma ProposerIsWinner(vs: seq<Validator>, times: nat)
    requires Good(vs) && vs != [] && times > 0
    requires times == 1 || |vs| * (2 * TotalPower(vs) + 1) + TotalPower(vs) <= MAX_INT64
    ensures Rotatable(Normalised(vs))
    ensures var ps, ws, total := PrioritiesOf(Normalised(vs)), PowersIn(vs), TotalPower(vs);
            Proposer(Normalised(vs), times) == Winner(Turns(ps, ws, total, times - 1), ws)
  {
    hide Levelled, Normalised, Rotated, Turns, ClippedTurns, ClippedRaised, Winner, TotalPower, PowersOf;
    hide AllInt64, Sorted, InBounds;
    GoodIsLevelled(vs);
    PowersAreInt64(vs);
    TotalIsPositive(vs);
    NormalisedPowers(vs);
    RotatedParts(Normalised(vs), times - 1);
    LeaderIsWinner(PrioritiesOf(Normalised(vs)), PowersIn(vs), TotalPower(vs), times - 1);
  }

  // ---------------------------------------------------------------- rounds and calls, in numbers

  /** Everybody's priority grows by its power; the highest, the lowest address among equals, is the
      proposer's, who pays the total power. */
  ghost predicate Round(vs: seq<Validator>, r: seq<Validator>, proposer: nat) {
    && proposer < |vs| == |r|
    && (forall i :: 0 <= i < |vs| ==>
          vs[i].priority + vs[i].power <= vs[proposer].priority + vs[proposer].power)
    && (forall i :: 0 <= i < |vs| && vs[i].signer < vs[proposer].signer ==>
          vs[i].priority + vs[i].power < vs[proposer].priority + vs[proposer].power)
    && (forall i :: 0 <= i < |vs| ==>
          r[i] == vs[i].(priority := vs[i].priority + vs[i].power - if i == proposer then TotalPower(vs) else 0))
  }

  lemma TurnIsRound(vs: seq<Validator>, total: int)
    requires Sorted(vs) && vs != [] && total == TotalPower(vs)
    ensures var ps, ws := PrioritiesOf(vs), PowersIn(vs);
            Round(vs, WithPriorities(vs, Turn(ps, ws, total)), Winner(ps, ws))
  {
    hide TotalPower;
    var up := Raised(PrioritiesOf(vs), PowersIn(vs));
    assert forall i :: 0 <= i < |vs| ==> up[i] == vs[i].priority + vs[i].power;
  }

  lemma TurnsStep(ps: seq<int>, ws: seq<int>, total: int, times: nat)
    requires |ps| == |ws| && ps != []
    ensures Turns(ps, ws, total, times + 1) == Turn(Turns(ps, ws, total, times), ws, total)
  {
    hide Turn;
  }

  lemma Reprioritised(vs: seq<Validator>, ps: seq<int>, qs: seq<int>)
    requires |ps| == |qs| == |vs|
    ensures WithPriorities(WithPriorities(vs, ps), qs) == WithPriorities(vs, qs)
  {
  }

  lemma RotatedIsTurns(start: seq<Validator>, times: nat)
    requires start != [] && Sorted(start) && AllPositive(start) && TotalPower(start) <= MAX_TOTAL_POWER
    requires Rotatable(start) && Levelled(PrioritiesOf(start), TotalPower(start))
    requires times <= 1 || |start| * (2 * TotalPower(start) + 1) + TotalPower(start) <= MAX_INT64
    ensures Rotated(start, times)
         == WithPriorities(start, Turns(PrioritiesOf(start), PowersIn(start), TotalPower(start), times))
  {
    hide Levelled, Turns, ClippedTurns, PowersOf, Sorted;
    PowersAreInt64(start);
    TotalIsPositive(start);
    NothingClips(PrioritiesOf(start), PowersIn(start), TotalPower(start), times);
  }

  lemma ProposerOfTurns(start: seq<Validator>, times: nat)
    requires start != [] && Sorted(start) && AllPositive(start) && TotalPower(start) <= MAX_TOTAL_POWER
    requires Rotatable(start) && Levelled(PrioritiesOf(start), TotalPower(start))
    requires times == 0 || |start| * (2 * TotalPower(start) + 1) + TotalPower(start) <= MAX_INT64
    ensures var ps, ws := PrioritiesOf(start), PowersIn(start);
            Proposer(start, times + 1) == Winner(Turns(ps, ws, TotalPower(start), times), ws)
  {
    hide Levelled, Turns, ClippedTurns, ClippedRaised, PowersOf, Sorted, Rotated, Winner;
    PowersAreInt64(start);
    TotalIsPositive(start);
    RotatedParts(start, times);
    LeaderIsWinner(PrioritiesOf(start), PowersIn(start), TotalPower(start), times);
  }

  /** Each round of a call is such a round, and its proposer is the one the call records. */
  lemma RotationIsRounds(vs: seq<Validator>, times: nat)
    requires Good(vs) && vs != []
    requires times == 0 || |vs| * (2 * TotalPower(vs) + 1) + TotalPower(vs) <= MAX_INT64
    ensures Rotatable(Normalised(vs))
    ensures var start := Normalised(vs);
            Round(Rotated(start, times), Rotated(start, times + 1), Proposer(start, times + 1))
  {
    hide Levelled, Normalised, Turns, Winner, TotalPower, Round, Turn, Rotated, InBounds, Proposer, WithPriorities;
    hide AllPositive;
    GoodIsLevelled(vs);
    NormalisedPowers(vs);
    var start, total := Normalised(vs), TotalPower(vs);
    var ps, ws := PrioritiesOf(start), PowersIn(start);
    RotatedIsTurns(start, times);
    RotatedIsTurns(start, times + 1);
    RotatedKeeps(start, times);
    ProposerOfTurns(start, times);
    var now := Turns(ps, ws, total, times);
    PrioritiesDoNotMatter(start, now);
    TurnIsRound(Rotated(start, times), total);
    TurnsStep(ps, ws, total, times);
    Reprioritised(start, now, Turns(ps, ws, total, times + 1));
  }

  /** A call of IncrementProposerPriority(1) levels the priorities and runs one round. */
  lemma CallIsRound(vs: seq<Validator>)
    requires Good(vs) && vs != []
    ensures Rotatable(Normalised(vs))
    ensures exists start, ratio, shift :: LevelledFrom(vs, start, ratio, shift)
              && Round(start, Step(vs, Increment), Proposer(Normalised(vs), 1))
  {
    hide Levelled, LevelledFrom, Normalised, TotalPower, Round, InBounds, Proposer;
    GoodIsLevelled(vs);
    NormalisedIsLevelledFrom(vs);
    LevelledIsRotatable(Normalised(vs));
    RotationIsRounds(vs, 0);
  }

  lemma LevelledTwice(vs: seq<Validator>)
    requires vs != [] && AllPositive(vs)
    ensures Normalised(vs) != [] && Normalised(Normalised(vs)) == Normalised(vs)
  {
    hide Rescaled, Centred, Spread;
    var ps, d := PrioritiesOf(vs), 2 * TotalPower(vs);
    TotalIsPositive(vs);
    PrioritiesOfNormalised(vs);
    PrioritiesOfNormalised(Normalised(vs));
    NormalisedPowers(vs);
    RescaledSpread(ps, d);
    SumOfCentred(Rescaled(ps, d));
    SpreadOfCentred(Rescaled(ps, d));
    LevellingIsIdentityIff(PrioritiesOf(Normalised(vs)), d);
  }

  lemma RoundFromLevel(vs: seq<Validator>)
    requires Good(vs) && vs != [] && Normalised(vs) == vs
    ensures Rotatable(Normalised(vs))
    ensures Round(vs, Step(vs, Increment), Proposer(Normalised(vs), 1))
  {
    hide Normalised, Round, Proposer, InBounds, Levelled;
    GoodIsLevelled(vs);
    LevelledIsRotatable(Normalised(vs));
    RotationIsRounds(vs, 0);
  }

  lemma UpdatedIsLevel(vs: seq<Validator>, changes: seq<Validator>)
    requires Good(vs) && changes != [] && Accepts(vs, changes, true)
    ensures Updatable(vs, changes) && Good(Updated(vs, changes))
    ensures Updated(vs, changes) != [] && Normalised(Updated(vs, changes)) == Updated(vs, changes)
  {
    hide Normalised, InBounds, ListOf, Target;
    AcceptedIsGood(vs, changes);
    LastTotalFits(vs, changes, Updates(changes));
    ApplyingIsSafe(vs, changes);
    LevelledTwice(ListOf(Target(vs, changes)));
  }

  /** An update and the call that follows it: one round from the updated priorities as they are. */
  lemma UpdateThenRound(vs: seq<Validator>, changes: seq<Validator>)
    requires Good(vs) && changes != [] && Accepts(vs, changes, true)
    ensures Updatable(vs, changes) && Good(Updated(vs, changes)) && Updated(vs, changes) != []
    ensures Rotatable(Normalised(Updated(vs, changes)))
    ensures Round(Updated(vs, changes), Step(Updated(vs, changes), Increment),
              Proposer(Normalised(Updated(vs, changes)), 1))
  {
    hide Normalised, Round, Proposer, Good, Updated, Updatable, Accepts;
    UpdatedIsLevel(vs, changes);
    RoundFromLevel(Updated(vs, changes));
  }

  // ---------------------------------------------------------------- the zero address

  ghost predicate NobodyAtZero(vs: seq<Validator>) {
    forall i :: 0 <= i < |vs| ==> vs[i].signer != ZERO_ADDRESS
  }

  lemma RotatedSigners(vs: seq<Validator>)
    requires Good(vs) && vs != []
    ensures Rotatable(Normalised(vs)) && |Rotated(Normalised(vs), 1)| == |vs|
    ensures forall i :: 0 <= i < |vs| ==> Rotated(Normalised(vs), 1)[i].signer == vs[i].signer
  {
    hide Rescaled, Centred, ClippedTurns, InBounds, Levelled;
    GoodIsLevelled(vs);
  }

  lemma UpdatedWithoutZero(vs: seq<Validator>, changes: seq<Validator>)
    requires Good(vs) && changes != [] && Accepts(vs, changes, true) && NobodyAtZero(vs)
    ensures Updatable(vs, changes) && NobodyAtZero(Updated(vs, changes))
  {
    hide Records, Updated, Updatable, InBounds, Within, TotalsFit, WellFormed;
    AcceptedIsGood(vs, changes);
    UpdateReplacesEntries(vs, changes);
    WellFormedMeans(changes);
    var r := Updated(vs, changes);
    forall i | 0 <= i < |r|
      ensures r[i].signer != ZERO_ADDRESS
    {
      InRecords(r, r[i].signer);
      InRecords(vs, r[i].signer);
      InRecords(changes, r[i].signer);
    }
  }

  /** The zero address never joins: over every run nobody has it unless somebody had it at the start. */
  lemma {:induction false} ZeroNeverJoins(vs: seq<Validator>, ops: seq<Op>)
    requires Good(vs) && NobodyAtZero(vs)
    ensures NobodyAtZero(Run(vs, ops))
    decreases |ops|
  {
    hide Good, Accepts, Updated, Rotated, Normalised;
    if ops != [] {
      StepKeepsGood(vs, ops[0]);
      match ops[0] {
        case Increment =>
          if vs != [] {
            RotatedSigners(vs);
          }
        case Update(changes) =>
          if changes != [] && Accepts(vs, changes, true) {
            UpdatedWithoutZero(vs, changes);
          }
      }
      ZeroNeverJoins(Step(vs, ops[0]), ops[1..]);
    }
  }
}
