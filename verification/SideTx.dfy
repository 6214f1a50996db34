/** Side transactions (app/side_tx_processor.go, sidechannel/keeper.go, sidechannel/module.go):
    a transaction delivered at height h is stored, voted on, and run at height h + 2. */
module SideTx {
  import opened GoInt
  import opened Sums

  type Hash = seq<Byte>
  type Tx = seq<Byte>

  /** The result types of a side vote; the wire format admits codes without a name. */
  datatype Vote = Yes | No | Skip | Unnamed(code: int)
  datatype Val = Val(address: seq<Byte>, power: int)
  datatype Sig = Sig(address: seq<Byte>, result: Vote)
  datatype SideTxResult = SideTxResult(txHash: Hash, sigs: seq<Sig>)

  // ---------------------------------------------------------------- counting the votes

  /** The first validator with the address, or -1. */
  function IndexByAddress(address: seq<Byte>, validators: seq<Val>): (i: int)
    ensures -1 <= i < |validators|
    ensures i >= 0 ==> validators[i].address == address
    ensures forall j :: 0 <= j < (if i == -1 then |validators| else i) ==> validators[j].address != address
  {
    if validators == [] then -1
    else
      var n := |validators| - 1;
      var before := IndexByAddress(address, validators[..n]);
      if before != -1 then before
      else if validators[n].address == address then n
      else -1
  }

  method GetValidatorIndexByAddress(address: seq<Byte>, validators: seq<Val>) returns (index: int)
    ensures index == IndexByAddress(address, validators)
  {
    for i := 0 to |validators|
      invariant forall j :: 0 <= j < i ==> validators[j].address != address
    {
      if address == validators[i].address {
        return i;
      }
    }
    return -1;
  }

  /** Whether validator i has signed, and what it said the first time. */
  function FirstVote(sigs: seq<Sig>, validators: seq<Val>, i: nat): seq<Vote> {
    if sigs == [] then []
    else
      var n := |sigs| - 1;
      var before := FirstVote(sigs[..n], validators, i);
      if before != [] then before
      else if IndexByAddress(sigs[n].address, validators) == i then [sigs[n].result]
      else []
  }

  /** What each validator adds to the count of a result: its power if its first signature
      says so. */
  function Credits(sigs: seq<Sig>, validators: seq<Val>, vote: Vote): (r: seq<int>)
    ensures |r| == |validators|
  {
    seq(|validators|, i requires 0 <= i < |validators| =>
      if FirstVote(sigs, validators, i) == [vote] then validators[i].power else 0)
  }

  function SignedPower(sigs: seq<Sig>, validators: seq<Val>, vote: Vote): int {
    Sum(Credits(sigs, validators, vote))
  }

  function PowersOfVals(validators: seq<Val>): (r: seq<int>)
    ensures |r| == |validators|
  {
    seq(|validators|, i requires 0 <= i < |validators| => validators[i].power)
  }

  function TotalSidePower(validators: seq<Val>): int {
    Sum(PowersOfVals(validators))
  }

  /** Twice the total is an int64; the engine keeps every total below MaxInt64 / 8. */
  predicate Fits(validators: seq<Val>) {
    (forall i :: 0 <= i < |validators| ==> validators[i].power >= 0) && 2 * TotalSidePower(validators) <= MAX_INT64
  }

  /** The validators that have signed, by index. */
  predicate UsedAre(used: set<int>, sigs: seq<Sig>, validators: seq<Val>) {
    forall i :: 0 <= i < |validators| ==> (i in used <==> FirstVote(sigs, validators, i) != [])
  }

  lemma CreditOnce(sigs: seq<Sig>, sig: Sig, validators: seq<Val>, vote: Vote)
    ensures var i := IndexByAddress(sig.address, validators);
            var before, now := Credits(sigs, validators, vote), Credits(sigs + [sig], validators, vote);
            now == if i >= 0 && FirstVote(sigs, validators, i) == [] && vote == sig.result
                   then before[i := validators[i].power] else before
    ensures var i := IndexByAddress(sig.address, validators);
            forall j :: 0 <= j < |validators| ==>
              (FirstVote(sigs + [sig], validators, j) != [] <==> j == i || FirstVote(sigs, validators, j) != [])
  {
    hide IndexByAddress;
    assert (sigs + [sig])[..|sigs|] == sigs;
  }

  lemma SignedPowerStep(sigs: seq<Sig>, sig: Sig, validators: seq<Val>, vote: Vote)
    ensures var i := IndexByAddress(sig.address, validators);
            SignedPower(sigs + [sig], validators, vote) == SignedPower(sigs, validators, vote)
              + if i >= 0 && FirstVote(sigs, validators, i) == [] && vote == sig.result then validators[i].power else 0
  {
    CreditOnce(sigs, sig, validators, vote);
    var i := IndexByAddress(sig.address, validators);
    if i >= 0 && FirstVote(sigs, validators, i) == [] && vote == sig.result {
      SumUpdate(Credits(sigs, validators, vote), i, validators[i].power);
    }
  }

  /** The first validator with the address of a signature. */
  predicate Signer(address: seq<Byte>, validators: seq<Val>, i: nat) {
    && i < |validators| && validators[i].address == address
    && forall j :: 0 <= j < i ==> validators[j].address != address
  }

  lemma SignerIsIndex(address: seq<Byte>, validators: seq<Val>, i: nat)
    ensures Signer(address, validators, i) <==> IndexByAddress(address, validators) == i
  {
  }

  lemma {:induction false} FirstVoteIsEmptyIff(sigs: seq<Sig>, validators: seq<Val>, i: nat)
    requires i < |validators|
    ensures FirstVote(sigs, validators, i) == []
       <==> forall m :: 0 <= m < |sigs| ==> IndexByAddress(sigs[m].address, validators) != i
  {
    hide IndexByAddress;
    if sigs != [] {
      FirstVoteIsEmptyIff(sigs[..|sigs| - 1], validators, i);
    }
  }

  lemma NothingSigned(validators: seq<Val>, vote: Vote)
    ensures SignedPower([], validators, vote) == 0
  {
    SumAtMost(Credits([], validators, vote), 0);
    SumAtLeast(Credits([], validators, vote), 0);
  }

  /** What one more signature adds to the count of a result: the power of the first validator with its
      address, if it is the first signature from there and says so; nothing otherwise. */
  lemma SignatureCounts(sigs: seq<Sig>, sig: Sig, validators: seq<Val>, vote: Vote, i: nat)
    ensures SignedPower([], validators, vote) == 0
    ensures var added := SignedPower(sigs + [sig], validators, vote) - SignedPower(sigs, validators, vote);
            && (Signer(sig.address, validators, i) ==>
                 added == if vote == sig.result && forall m :: 0 <= m < |sigs| ==> sigs[m].address != sig.address
                          then validators[i].power else 0)
            && ((forall j :: 0 <= j < |validators| ==> validators[j].address != sig.address) ==> added == 0)
  {
    hide SignedPower, FirstVote;
    NothingSigned(validators, vote);
    SignedPowerStep(sigs, sig, validators, vote);
    SignerIsIndex(sig.address, validators, i);
    if Signer(sig.address, validators, i) {
      FirstVoteIsEmptyIff(sigs, validators, i);
      forall m | 0 <= m < |sigs|
        ensures sigs[m].address == sig.address <==> IndexByAddress(sigs[m].address, validators) == i
      {
        SignerIsIndex(sigs[m].address, validators, i);
      }
    }
  }

  /** The total is that of the powers, one after the other. */
  lemma TotalIsOfPowers(validators: seq<Val>, v: Val)
    ensures TotalSidePower([]) == 0
    ensures TotalSidePower(validators + [v]) == TotalSidePower(validators) + v.power
  {
    assert PowersOfVals(validators + [v])[..|validators|] == PowersOfVals(validators);
  }

  /** Whatever is signed, no result collects more than there is. */
  lemma SignedPowerIsBounded(sigs: seq<Sig>, validators: seq<Val>, vote: Vote)
    requires Fits(validators)
    ensures 0 <= SignedPower(sigs, validators, vote) <= TotalSidePower(validators)
  {
    SumPointwise(Credits(sigs, validators, vote), PowersOfVals(validators));
    SumAtLeast(Credits(sigs, validators, vote), 0);
  }

  /** A power counts for one result only. */
  lemma PowerCountsOnce(sigs: seq<Sig>, validators: seq<Val>)
    requires Fits(validators)
    ensures SignedPower(sigs, validators, Yes) + SignedPower(sigs, validators, No) <= TotalSidePower(validators)
  {
    var yes, no := Credits(sigs, validators, Yes), Credits(sigs, validators, No);
    var both := seq(|yes|, i requires 0 <= i < |yes| => yes[i] + no[i]);
    SumOfSums(yes, no, both);
    SumPointwise(both, PowersOfVals(validators));
  }

  /** From the int64 total. */
  function Threshold(total: int): int {
    TruncDiv(Wrap64(total * 2), 3) + 1
  }

  /** The result the transaction is run with; the sums are int64 and wrap around. */
  function Verdict(sigs: seq<Sig>, validators: seq<Val>): Vote {
    var threshold := Threshold(Wrap64(TotalSidePower(validators)));
    if Wrap64(SignedPower(sigs, validators, Yes)) >= threshold then Yes
    else if Wrap64(SignedPower(sigs, validators, No)) >= threshold then No
    else Skip
  }

  /** Yes means that strictly more than two thirds of the power signed Yes first; likewise
      No; and the two exclude each other. */
  lemma VerdictIsMajority(sigs: seq<Sig>, validators: seq<Val>)
    requires Fits(validators)
    ensures Verdict(sigs, validators) == Yes <==>
              3 * SignedPower(sigs, validators, Yes) > 2 * TotalSidePower(validators)
    ensures Verdict(sigs, validators) == No <==> 3 * SignedPower(sigs, validators, No) > 2 * TotalSidePower(validators)
    ensures Verdict(sigs, validators) in {Yes, No, Skip}
  {
    PowerCountsOnce(sigs, validators);
    SignedPowerIsBounded(sigs, validators, Yes);
    SignedPowerIsBounded(sigs, validators, No);
  }

  method TotalPower(validators: seq<Val>) returns (totalPower: int)
    ensures totalPower == Wrap64(TotalSidePower(validators))
  {
    totalPower := 0;
    ghost var powers := PowersOfVals(validators);
    for i := 0 to |validators|
      invariant totalPower == Wrap64(Sum(powers[..i]))
    {
      assert powers[..i + 1][..i] == powers[..i];
      WrapOfSum(Sum(powers[..i]), validators[i].power);
      totalPower := Wrap64(totalPower + validators[i].power);
    }
    assert powers[..|validators|] == powers;
  }

  function At(m: map<Vote, int>, vote: Vote): int {
    if vote in m then m[vote] else 0
  }

  ghost predicate Counted(signedPower: map<Vote, int>, sigs: seq<Sig>, validators: seq<Val>) {
    && Yes in signedPower && No in signedPower
    && forall vote :: At(signedPower, vote) == Wrap64(SignedPower(sigs, validators, vote))
  }

  lemma CountedStep(signedPower: map<Vote, int>, used: set<int>, sigs: seq<Sig>, sig: Sig, validators: seq<Val>)
    requires Counted(signedPower, sigs, validators) && UsedAre(used, sigs, validators)
    ensures var i := IndexByAddress(sig.address, validators);
            if i != -1 && i !in used then
              var power := Wrap64(At(signedPower, sig.result) + validators[i].power);
              && Counted(signedPower[sig.result := power], sigs + [sig], validators)
              && UsedAre(used + {i}, sigs + [sig], validators)
            else Counted(signedPower, sigs + [sig], validators) && UsedAre(used, sigs + [sig], validators)
  {
    CreditOnce(sigs, sig, validators, Yes);
    hide SignedPower, FirstVote, IndexByAddress, Wrap64;
    var i := IndexByAddress(sig.address, validators);
    forall vote
      ensures SignedPower(sigs + [sig], validators, vote) == SignedPower(sigs, validators, vote)
                + if i >= 0 && i !in used && vote == sig.result then validators[i].power else 0
    {
      SignedPowerStep(sigs, sig, validators, vote);
    }
    if i != -1 && i !in used {
      WrapOfSum(SignedPower(sigs, validators, sig.result), validators[i].power);
    }
  }

  lemma NothingCounted(validators: seq<Val>)
    ensures Counted(map[Yes := 0, Skip := 0, No := 0], [], validators) && UsedAre({}, [], validators)
  {
    forall vote
      ensures SignedPower([], validators, vote) == 0
    {
      NothingSigned(validators, vote);
    }
  }

  method CountVotes(sigs: seq<Sig>, validators: seq<Val>) returns (signedPower: map<Vote, int>)
    ensures Counted(signedPower, sigs, validators)
  {
    hide Counted, UsedAre, IndexByAddress;
    var usedValidator: set<int> := {};
    signedPower := map[Yes := 0, Skip := 0, No := 0];
    NothingCounted(validators);
    assert sigs[..0] == [];
    for n := 0 to |sigs|
      invariant UsedAre(usedValidator, sigs[..n], validators)
      invariant Counted(signedPower, sigs[..n], validators)
    {
      var sigObj := sigs[n];
      assert sigs[..n + 1] == sigs[..n] + [sigObj];
      CountedStep(signedPower, usedValidator, sigs[..n], sigObj, validators);
      var i := GetValidatorIndexByAddress(sigObj.address, validators);
      if i != -1 {
        if i !in usedValidator {
          signedPower := signedPower[sigObj.result := Wrap64(At(signedPower, sigObj.result) + validators[i].power)];
          usedValidator := usedValidator + {i};
        }
      }
    }
    assert sigs[..|sigs|] == sigs;
  }

  // ---------------------------------------------------------------- the store

  /** One execution of a stored transaction's post-handlers. */
  datatype Run = Run(stored: int, at: int, hash: Hash, tx: Tx, result: Vote)

  /** The side channel's store, and the executions so far. */
  datatype State = State(txs: map<(int, Hash), Tx>, validators: map<int, seq<Val>>, runs: multiset<Run>)

  function ValidatorsAt(validators: map<int, seq<Val>>, height: int): seq<Val> {
    if height in validators then validators[height] else []
  }

  /** The votes of the first result for the hash decide; without one the result is Skip. */
  function Decision(results: seq<SideTxResult>, hash: Hash, validators: seq<Val>): Vote {
    if results == [] then Skip
    else if results[0].txHash == hash then Verdict(results[0].sigs, validators)
    else Decision(results[1..], hash, validators)
  }

  /** The first result for the hash. */
  predicate FirstFor(results: seq<SideTxResult>, hash: Hash, j: nat) {
    && j < |results| && results[j].txHash == hash
    && forall i :: 0 <= i < j ==> results[i].txHash != hash
  }

  /** The vote that more than two thirds of the power give in the first result for the hash, if there is
      one; Skip if not. */
  ghost predicate Decided(vote: Vote, results: seq<SideTxResult>, hash: Hash, validators: seq<Val>) {
    && (forall j: nat :: FirstFor(results, hash, j) && Fits(validators) ==>
          && (vote == Yes <==> 3 * SignedPower(results[j].sigs, validators, Yes) > 2 * TotalSidePower(validators))
          && (vote == No <==> 3 * SignedPower(results[j].sigs, validators, No) > 2 * TotalSidePower(validators))
          && vote in {Yes, No, Skip})
    && ((forall j :: 0 <= j < |results| ==> results[j].txHash != hash) ==> vote == Skip)
  }

  lemma {:induction false} DecisionIsOfFirst(results: seq<SideTxResult>, hash: Hash, validators: seq<Val>, j: nat)
    ensures FirstFor(results, hash, j) ==> Decision(results, hash, validators) == Verdict(results[j].sigs, validators)
    ensures (forall i :: 0 <= i < |results| ==> results[i].txHash != hash) ==>
              Decision(results, hash, validators) == Skip
  {
    hide Verdict;
    if results != [] && results[0].txHash != hash {
      assert forall i :: 0 <= i < |results| - 1 ==> results[1..][i] == results[i + 1];
      DecisionIsOfFirst(results[1..], hash, validators, if j > 0 then j - 1 else 0);
    }
  }

  lemma DecisionDecides(results: seq<SideTxResult>, hash: Hash, validators: seq<Val>)
    ensures Decided(Decision(results, hash, validators), results, hash, validators)
  {
    hide Decision, Verdict, SignedPower, TotalSidePower, Fits;
    DecisionIsOfFirst(results, hash, validators, 0);
    forall j: nat | FirstFor(results, hash, j) && Fits(validators)
      ensures Decision(results, hash, validators) == Verdict(results[j].sigs, validators)
      ensures Verdict(results[j].sigs, validators) in {Yes, No, Skip}
      ensures Verdict(results[j].sigs, validators) == Yes <==>
                3 * SignedPower(results[j].sigs, validators, Yes) > 2 * TotalSidePower(validators)
      ensures Verdict(results[j].sigs, validators) == No <==>
                3 * SignedPower(results[j].sigs, validators, No) > 2 * TotalSidePower(validators)
    {
      DecisionIsOfFirst(results, hash, validators, j);
      VerdictIsMajority(results[j].sigs, validators);
    }
  }

  function KeysAt(txs: map<(int, Hash), Tx>, height: int): set<(int, Hash)> {
    set k | k in txs && k.0 == height
  }

  function RunOf(txs: map<(int, Hash), Tx>, k: (int, Hash), results: seq<SideTxResult>, validators: seq<Val>): Run
    requires k in txs
  {
    Run(k.0, k.0 + 2, k.1, txs[k], Decision(results, k.1, validators))
  }

  function RunsOf(txs: map<(int, Hash), Tx>, keys: set<(int, Hash)>, results: seq<SideTxResult>,
      validators: seq<Val>): set<Run>
    requires keys <= txs.Keys
  {
    set k | k in keys :: RunOf(txs, k, results, validators)
  }

  /** Everything stored two blocks ago is run and removed, unless there are no validators. */
  function AfterSide(s: State, height: int, results: seq<SideTxResult>): State {
    var validators := ValidatorsAt(s.validators, height);
    if height <= 2 || validators == [] then s
    else
      var due := KeysAt(s.txs, height - 2);
      s.(txs := s.txs - due, runs := s.runs + multiset(RunsOf(s.txs, due, results, validators)))
  }

  datatype Delivery = Delivery(tx: Tx, ok: bool, sideMsgs: seq<bool>)

  function AfterDelivery(s: State, hash: Tx -> Hash, height: int, d: Delivery): State {
    if height > 2 && d.ok && true in d.sideMsgs then s.(txs := s.txs[(height, hash(d.tx)) := d.tx]) else s
  }

  function AfterBegin(s: State, height: int, votes: seq<Val>): State {
    if votes == [] then s else s.(validators := s.validators[height := votes])
  }

  function AfterEnd(s: State, height: int): State {
    s.(validators := s.validators - {height})
  }

  predicate WellKeyed(txs: map<(int, Hash), Tx>, hash: Tx -> Hash) {
    forall k :: k in txs ==> hash(txs[k]) == k.1
  }

  lemma OneMoreRun(txs: map<(int, Hash), Tx>, done: set<(int, Hash)>, k: (int, Hash), results: seq<SideTxResult>,
      validators: seq<Val>)
    requires done <= txs.Keys && k in txs && k !in done
    ensures multiset(RunsOf(txs, done + {k}, results, validators))
         == multiset(RunsOf(txs, done, results, validators)) + multiset{RunOf(txs, k, results, validators)}
  {
    var before, run := RunsOf(txs, done, results, validators), RunOf(txs, k, results, validators);
    assert run !in before;
    assert RunsOf(txs, done + {k}, results, validators) == before + {run};
  }

  /** From the store `was`, the entries of `done` have been run and removed. */
  ghost predicate Progress(was: State, now: State, done: set<(int, Hash)>, results: seq<SideTxResult>,
      validators: seq<Val>) {
    && done <= was.txs.Keys
    && now == was.(txs := was.txs - done, runs := was.runs + multiset(RunsOf(was.txs, done, results, validators)))
  }

  lemma ProgressStep(was: State, now: State, done: set<(int, Hash)>, k: (int, Hash), results: seq<SideTxResult>,
      validators: seq<Val>)
    requires Progress(was, now, done, results, validators) && k in now.txs
    ensures k in was.txs && was.txs[k] == now.txs[k]
    ensures var next := now.(txs := now.txs - {k}, runs := now.runs + multiset{RunOf(was.txs, k, results, validators)});
            Progress(was, next, done + {k}, results, validators)
  {
    OneMoreRun(was.txs, done, k, results, validators);
    assert was.txs - done - {k} == was.txs - (done + {k});
  }

  lemma ProgressIsSide(was: State, now: State, height: int, results: seq<SideTxResult>)
    requires height > 2 && ValidatorsAt(was.validators, height) != []
    requires Progress(was, now, KeysAt(was.txs, height - 2), results, ValidatorsAt(was.validators, height))
    ensures now == AfterSide(was, height, results)
  {
    hide RunsOf, KeysAt;
  }

  /** The executions that `now` has more than `was`. */
  predicate Added(was: multiset<Run>, now: multiset<Run>, r: Run) {
    now[r] > was[r]
  }

  /** Every execution added is of a transaction of the height and follows the signatures. */
  lemma ProgressDecides(was: State, now: State, done: set<(int, Hash)>, results: seq<SideTxResult>,
      validators: seq<Val>, r: Run)
    requires Progress(was, now, done, results, validators) && Added(was.runs, now.runs, r)
    ensures (r.stored, r.hash) in done && r.tx == was.txs[(r.stored, r.hash)] && r.at == r.stored + 2
    ensures Decided(r.result, results, r.hash, validators)
  {
    hide Decision, Decided;
    assert r in RunsOf(was.txs, done, results, validators);
    DecisionDecides(results, r.hash, validators);
  }

  lemma NoProgress(s: State, results: seq<SideTxResult>, validators: seq<Val>)
    ensures Progress(s, s, {}, results, validators)
  {
    hide RunOf;
    assert s.txs - {} == s.txs;
  }

  lemma FewerKeyed(txs: map<(int, Hash), Tx>, k: (int, Hash), hash: Tx -> Hash)
    requires WellKeyed(txs, hash)
    ensures WellKeyed(txs - {k}, hash) && (k in txs ==> hash(txs[k]) == k.1)
  {
  }

  lemma DecisionStep(results: seq<SideTxResult>, j: nat, hash: Hash, validators: seq<Val>)
    requires j < |results|
    ensures Decision(results[j..], hash, validators)
         == if results[j].txHash == hash then Verdict(results[j].sigs, validators)
            else Decision(results[j + 1..], hash, validators)
  {
    hide Verdict;
    assert results[j..][0] == results[j] && results[j..][1..] == results[j + 1..];
  }

  lemma DecisionOfNone(results: seq<SideTxResult>, hash: Hash, validators: seq<Val>)
    ensures Decision(results[|results|..], hash, validators) == Skip
  {
  }

  lemma ProgressLeaves(was: State, now: State, done: set<(int, Hash)>, results: seq<SideTxResult>, validators: seq<Val>)
    requires Progress(was, now, done, results, validators)
    ensures now.txs == was.txs - done
  {
  }

  class SideChannel {
    const hash: Tx -> Hash
    var txs: map<(int, Hash), Tx>
    var validators: map<int, seq<Val>>
    var runs: multiset<Run>

    ghost function Now(): State
      reads this
    {
      State(txs, validators, runs)
    }

    ghost predicate Valid()
      reads this
    {
      WellKeyed(txs, hash)
    }

    constructor (hash: Tx -> Hash)
      ensures Valid() && this.hash == hash && Now() == State(map[], map[], multiset{})
    {
      this.hash, txs, validators, runs := hash, map[], map[], multiset{};
    }

    method BeginBlock(height: int, votes: seq<Val>)
      requires Valid()
      modifies this`validators
      ensures Valid() && Now() == AfterBegin(old(Now()), height, votes)
    {
      if |votes| > 0 {
        validators := validators[height := votes];
      }
    }

    method EndBlock(height: int)
      requires Valid()
      modifies this`validators
      ensures Valid() && Now() == AfterEnd(old(Now()), height)
    {
      validators := validators - {height};
    }

    method PostDeliverTxHandler(height: int, d: Delivery)
      requires Valid()
      modifies this`txs
      ensures Valid() && Now() == AfterDelivery(old(Now()), hash, height, d)
    {
      if height <= 2 {
        return;
      }
      if d.ok {
        var anySideMsg := false;
        for i := 0 to |d.sideMsgs|
          invariant !anySideMsg && true !in d.sideMsgs[..i]
        {
          if d.sideMsgs[i] {
            anySideMsg := true;
            break;
          }
        }
        if anySideMsg {
          txs := txs[(height, hash(d.tx)) := d.tx];
        }
      }
    }

    method RunTx(k: (int, Hash), tx: Tx, result: Vote)
      modifies this`runs
      ensures runs == old(runs) + multiset{Run(k.0, k.0 + 2, k.1, tx, result)}
    {
      runs := runs + multiset{Run(k.0, k.0 + 2, k.1, tx, result)};
    }

    /** Counts the votes of one result and runs its transaction. */
    method Decide(k: (int, Hash), tx: Tx, sigs: seq<Sig>, vals: seq<Val>, totalPower: int)
      requires totalPower == Wrap64(TotalSidePower(vals))
      modifies this`runs
      ensures runs == old(runs) + multiset{Run(k.0, k.0 + 2, k.1, tx, Verdict(sigs, vals))}
    {
      var signedPower := CountVotes(sigs, vals);
      assert At(signedPower, Yes) == signedPower[Yes] && At(signedPower, No) == signedPower[No];
      if signedPower[Yes] >= TruncDiv(Wrap64(totalPower * 2), 3) + 1 {
        RunTx(k, tx, Yes);
      } else if signedPower[No] >= TruncDiv(Wrap64(totalPower * 2), 3) + 1 {
        RunTx(k, tx, No);
      } else {
        RunTx(k, tx, Skip);
      }
    }

    /** Runs and removes what the results name. */
    method RunResults(targetHeight: int, results: seq<SideTxResult>, vals: seq<Val>, totalPower: int)
      returns (ghost done: set<(int, Hash)>)
      requires Valid() && totalPower == Wrap64(TotalSidePower(vals))
      modifies this`txs, this`runs
      ensures Valid() && done <= KeysAt(old(txs), targetHeight)
      ensures Progress(old(Now()), Now(), done, results, vals)
      ensures forall k :: k in txs && k.0 == targetHeight ==> Decision(results, k.1, vals) == Skip
      ensures forall r :: Added(old(runs), runs, r) ==> Decided(r.result, results, r.hash, vals)
    {
      hide Decided, Decision, Verdict, RunsOf, Progress, WellKeyed;
      done := {};
      ghost var was := Now();
      NoProgress(was, results, vals);
      assert results[0..] == results;
      for j := 0 to |results|
        invariant WellKeyed(txs, hash)
        invariant done <= KeysAt(was.txs, targetHeight)
        invariant Progress(was, Now(), done, results, vals)
        invariant forall k :: k in txs && k.0 == targetHeight ==>
                  Decision(results, k.1, vals) == Decision(results[j..], k.1, vals)
      {
        var sideTxResult := results[j];
        var k := (targetHeight, sideTxResult.txHash);
        forall l | l in txs && l.0 == targetHeight
          ensures Decision(results[j..], l.1, vals)
               == if l == k then Verdict(sideTxResult.sigs, vals) else Decision(results[j + 1..], l.1, vals)
        {
          DecisionStep(results, j, l.1, vals);
        }
        if k in txs {
          var tx := txs[k];
          ProgressStep(was, Now(), done, k, results, vals);
          FewerKeyed(txs, k, hash);
          txs := txs - {k};
          Decide(k, tx, sideTxResult.sigs, vals, totalPower);
          done := done + {k};
        }
      }
      forall l | l in txs && l.0 == targetHeight
        ensures Decision(results[|results|..], l.1, vals) == Skip
      {
        DecisionOfNone(results, l.1, vals);
      }
      forall r | Added(was.runs, runs, r)
        ensures Decided(r.result, results, r.hash, vals)
      {
        ProgressDecides(was, Now(), done, results, vals, r);
      }
    }

    /** Runs and removes what is left, with the result Skip. */
    method RunRest(targetHeight: int, ghost was: State, ghost done: set<(int, Hash)>,
        ghost results: seq<SideTxResult>, ghost vals: seq<Val>)
      requires Valid() && done <= KeysAt(was.txs, targetHeight) && Progress(was, Now(), done, results, vals)
      requires forall k :: k in txs && k.0 == targetHeight ==> Decision(results, k.1, vals) == Skip
      modifies this`txs, this`runs
      ensures Valid() && Progress(was, Now(), KeysAt(was.txs, targetHeight), results, vals)
    {
      hide RunsOf, Decision, Progress, WellKeyed;
      var left := KeysAt(txs, targetHeight);
      ghost var gone := done;
      ghost var all := KeysAt(was.txs, targetHeight);
      ProgressLeaves(was, Now(), done, results, vals);
      assert left == all - done;
      while left != {}
        invariant left <= all && gone == all - left
        invariant WellKeyed(txs, hash)
        invariant Progress(was, Now(), gone, results, vals)
        invariant forall k :: k in left ==> Decision(results, k.1, vals) == Skip
        decreases left
      {
        var k :| k in left;
        ProgressLeaves(was, Now(), gone, results, vals);
        var tx := txs[k];
        ProgressStep(was, Now(), gone, k, results, vals);
        FewerKeyed(txs, k, hash);
        txs := txs - {(targetHeight, hash(tx))};
        RunTx(k, tx, Skip);
        left, gone := left - {k}, gone + {k};
      }
      assert gone == all;
    }

    method BeginSideBlocker(height: int, results: seq<SideTxResult>)
      requires Valid()
      modifies this`txs, this`runs
      ensures Valid() && Now() == AfterSide(old(Now()), height, results)
      ensures forall r :: Added(old(runs), runs, r) ==>
                r.at == height && Decided(r.result, results, r.hash, ValidatorsAt(validators, height))
    {
      hide Decided;
      if height <= 2 {
        return;
      }
      var targetHeight := height - 2;
      var vals := if height in validators then validators[height] else [];
      if |vals| == 0 {
        return;
      }
      var totalPower := TotalPower(vals);
      ghost var was := Now();
      ghost var done := RunResults(targetHeight, results, vals, totalPower);
      RunRest(targetHeight, was, done, results, vals);
      ProgressIsSide(was, Now(), height, results);
      forall r | Added(was.runs, runs, r)
        ensures r.at == height && Decided(r.result, results, r.hash, vals)
      {
        ProgressDecides(was, Now(), KeysAt(was.txs, targetHeight), results, vals, r);
      }
    }
  }

  // ---------------------------------------------------------------- whole runs

  /** What one block brings: the votes of the last commit, the side results, the transactions
      delivered, and whether the modules' end blockers run. They do not when the application's own
      end blocker returns early on a refused change set. */
  datatype Block = Block(votes: seq<Val>, results: seq<SideTxResult>, deliveries: seq<Delivery>, ends: bool)

  function DeliverAll(s: State, hash: Tx -> Hash, height: int, ds: seq<Delivery>): State {
    if ds == [] then s
    else AfterDelivery(DeliverAll(s, hash, height, ds[..|ds| - 1]), hash, height, ds[|ds| - 1])
  }

  /** One block, from the state `s` before it. */
  function OneBlock(s: State, hash: Tx -> Hash, height: int, b: Block): State {
    var t := AfterSide(AfterBegin(s, height, b.votes), height, b.results);
    var u := DeliverAll(t, hash, height, b.deliveries);
    if b.ends then AfterEnd(u, height) else u
  }

  /** The first |blocks| blocks of the chain, from height 1. */
  function Exec(blocks: seq<Block>, hash: Tx -> Hash): State {
    if blocks == [] then State(map[], map[], multiset{})
    else
      var height, b := |blocks|, blocks[|blocks| - 1];
      OneBlock(Exec(blocks[..height - 1], hash), hash, height, b)
  }

  /** What the deliveries store under each hash: the last that is a side transaction. */
  function Stored(hash: Tx -> Hash, ds: seq<Delivery>): map<Hash, Tx> {
    if ds == [] then map[]
    else
      var before, d := Stored(hash, ds[..|ds| - 1]), ds[|ds| - 1];
      if d.ok && true in d.sideMsgs then before[hash(d.tx) := d.tx] else before
  }

  /** The executions there should be: one for every transaction stored at a height h above 2
      once block h + 2 has come with validators, with the decision of that block's results. */
  predicate Expected(blocks: seq<Block>, hash: Tx -> Hash, r: Run) {
    && 3 <= r.stored && r.at == r.stored + 2 <= |blocks|
    && r.hash in Stored(hash, blocks[r.stored - 1].deliveries)
    && r.tx == Stored(hash, blocks[r.stored - 1].deliveries)[r.hash]
    && blocks[r.at - 1].votes != []
    && r.result == Decision(blocks[r.at - 1].results, r.hash, blocks[r.at - 1].votes)
  }

  /** What still waits: the last two blocks' transactions, and those whose block came without
      validators, which wait for ever. */
  predicate Waiting(blocks: seq<Block>, hash: Tx -> Hash, k: (int, Hash)) {
    && 3 <= k.0 <= |blocks|
    && k.1 in Stored(hash, blocks[k.0 - 1].deliveries)
    && (k.0 + 2 <= |blocks| ==> blocks[k.0 + 1].votes == [])
  }

  lemma {:induction false} DeliverAllStores(s: State, hash: Tx -> Hash, height: int, ds: seq<Delivery>)
    ensures var t := DeliverAll(s, hash, height, ds);
            && t.validators == s.validators && t.runs == s.runs
            && forall k :: (k in t.txs <==> k in s.txs || (height > 2 && k.0 == height && k.1 in Stored(hash, ds)))
    ensures var t := DeliverAll(s, hash, height, ds);
            forall k :: k in t.txs ==>
              t.txs[k] == if height > 2 && k.0 == height && k.1 in Stored(hash, ds) then Stored(hash, ds)[k.1]
                          else s.txs[k]
  {
    if ds != [] {
      DeliverAllStores(s, hash, height, ds[..|ds| - 1]);
    }
  }

  predicate EntryAgrees(txs: map<(int, Hash), Tx>, blocks: seq<Block>, hash: Tx -> Hash, k: (int, Hash)) {
    && (k in txs <==> Waiting(blocks, hash, k))
    && (k in txs ==> txs[k] == Stored(hash, blocks[k.0 - 1].deliveries)[k.1])
  }

  predicate RunAgrees(runs: multiset<Run>, blocks: seq<Block>, hash: Tx -> Hash, r: Run) {
    runs[r] == if Expected(blocks, hash, r) then 1 else 0
  }

  /** Validators of earlier heights can be left over, those of later ones cannot. */
  predicate NoneAfter(validators: map<int, seq<Val>>, height: int) {
    forall h :: h in validators ==> h <= height
  }

  ghost predicate Agrees(s: State, blocks: seq<Block>, hash: Tx -> Hash) {
    && NoneAfter(s.validators, |blocks|)
    && (forall k :: EntryAgrees(s.txs, blocks, hash, k))
    && (forall r :: RunAgrees(s.runs, blocks, hash, r))
  }

  lemma OneBlockParts(s: State, hash: Tx -> Hash, height: int, b: Block)
    requires NoneAfter(s.validators, height - 1)
    ensures var t, u := AfterSide(AfterBegin(s, height, b.votes), height, b.results), OneBlock(s, hash, height, b);
            && NoneAfter(u.validators, height) && u.runs == t.runs
            && u.txs == DeliverAll(t, hash, height, b.deliveries).txs
  {
    hide RunsOf, KeysAt, DeliverAll;
    var t := AfterSide(AfterBegin(s, height, b.votes), height, b.results);
    DeliverAllStores(t, hash, height, b.deliveries);
  }

  lemma SideTxs(s: State, height: int, b: Block, k: (int, Hash))
    requires height !in s.validators
    ensures var t := AfterSide(AfterBegin(s, height, b.votes), height, b.results);
            && (k in t.txs <==> k in s.txs && !(height > 2 && b.votes != [] && k.0 == height - 2))
            && (k in t.txs ==> t.txs[k] == s.txs[k])
  {
    hide RunsOf;
  }

  lemma WaitingStep(s: State, blocks: seq<Block>, hash: Tx -> Hash, k: (int, Hash))
    requires blocks != [] && |blocks| !in s.validators && EntryAgrees(s.txs, blocks[..|blocks| - 1], hash, k)
    ensures var height, b := |blocks|, blocks[|blocks| - 1];
            var t := AfterSide(AfterBegin(s, height, b.votes), height, b.results);
            EntryAgrees(DeliverAll(t, hash, height, b.deliveries).txs, blocks, hash, k)
  {
    hide AfterSide, DeliverAll, Stored;
    var height, b := |blocks|, blocks[|blocks| - 1];
    SideTxs(s, height, b, k);
    DeliverAllStores(AfterSide(AfterBegin(s, height, b.votes), height, b.results), hash, height, b.deliveries);
  }

  /** Which executions a block adds. */
  lemma RunsOfContains(txs: map<(int, Hash), Tx>, height: int, results: seq<SideTxResult>, validators: seq<Val>, r: Run)
    ensures r in RunsOf(txs, KeysAt(txs, height), results, validators)
            <==> r.stored == height && r.at == height + 2 && (height, r.hash) in txs && r.tx == txs[(height, r.hash)]
                 && r.result == Decision(results, r.hash, validators)
  {
    var k := (height, r.hash);
    if k in txs && r == RunOf(txs, k, results, validators) {
      assert k in KeysAt(txs, height);
    }
  }

  lemma SideRuns(s: State, height: int, b: Block, r: Run)
    requires height !in s.validators
    ensures var due := RunsOf(s.txs, KeysAt(s.txs, height - 2), b.results, b.votes);
            AfterSide(AfterBegin(s, height, b.votes), height, b.results).runs[r]
            == s.runs[r] + if height > 2 && b.votes != [] && r in due then 1 else 0
  {
    hide RunsOf, KeysAt;
  }

  lemma ExpectedStep(blocks: seq<Block>, hash: Tx -> Hash, r: Run)
    requires blocks != []
    ensures r.at != |blocks| ==> (Expected(blocks, hash, r) <==> Expected(blocks[..|blocks| - 1], hash, r))
    ensures r.at == |blocks| ==> !Expected(blocks[..|blocks| - 1], hash, r)
  {
  }

  lemma SideRunsAgree(s: State, blocks: seq<Block>, hash: Tx -> Hash, r: Run)
    requires blocks != [] && |blocks| !in s.validators
    requires RunAgrees(s.runs, blocks[..|blocks| - 1], hash, r)
    requires EntryAgrees(s.txs, blocks[..|blocks| - 1], hash, (|blocks| - 2, r.hash))
    ensures var height, b := |blocks|, blocks[|blocks| - 1];
            RunAgrees(AfterSide(AfterBegin(s, height, b.votes), height, b.results).runs, blocks, hash, r)
  {
    hide AfterSide, RunsOf, KeysAt, Stored, Decision;
    var height, b := |blocks|, blocks[|blocks| - 1];
    SideRuns(s, height, b, r);
    RunsOfContains(s.txs, height - 2, b.results, b.votes, r);
    ExpectedStep(blocks, hash, r);
  }

  lemma BlockAgrees(s: State, blocks: seq<Block>, hash: Tx -> Hash)
    requires blocks != [] && Agrees(s, blocks[..|blocks| - 1], hash)
    ensures Agrees(OneBlock(s, hash, |blocks|, blocks[|blocks| - 1]), blocks, hash)
  {
    var height, b := |blocks|, blocks[|blocks| - 1];
    var u := OneBlock(s, hash, height, b);
    OneBlockParts(s, hash, height, b);
    hide OneBlock, EntryAgrees, RunAgrees;
    forall r
      ensures RunAgrees(u.runs, blocks, hash, r)
    {
      assert RunAgrees(s.runs, blocks[..height - 1], hash, r);
      assert EntryAgrees(s.txs, blocks[..height - 1], hash, (height - 2, r.hash));
      SideRunsAgree(s, blocks, hash, r);
    }
    forall k
      ensures EntryAgrees(u.txs, blocks, hash, k)
    {
      assert EntryAgrees(s.txs, blocks[..height - 1], hash, k);
      WaitingStep(s, blocks, hash, k);
    }
  }

  lemma {:induction false} ExecAgrees(blocks: seq<Block>, hash: Tx -> Hash)
    ensures Agrees(Exec(blocks, hash), blocks, hash)
  {
    if blocks != [] {
      var n := |blocks| - 1;
      ExecAgrees(blocks[..n], hash);
      BlockAgrees(Exec(blocks[..n], hash), blocks, hash);
    }
  }

  /** Exactly once: over every chain of blocks, whatever results come, the executions are
      those expected, each one time ... */
  lemma ExactlyOnce(blocks: seq<Block>, hash: Tx -> Hash, r: Run)
    ensures Exec(blocks, hash).runs[r] == if Expected(blocks, hash, r) then 1 else 0
  {
    ExecAgrees(blocks, hash);
    hide Exec, Expected;
    assert RunAgrees(Exec(blocks, hash).runs, blocks, hash, r);
  }

  /** ... of which there is at most one for a stored transaction ... */
  lemma OneRunEach(blocks: seq<Block>, hash: Tx -> Hash, r: Run, q: Run)
    requires r in Exec(blocks, hash).runs && q in Exec(blocks, hash).runs && r.stored == q.stored && r.hash == q.hash
    ensures r == q
  {
    hide Exec;
    ExactlyOnce(blocks, hash, r);
    ExactlyOnce(blocks, hash, q);
  }

  ghost predicate HasRun(runs: multiset<Run>, h: int, k: Hash) {
    exists r :: r in runs && r.stored == h && r.hash == k
  }

  lemma RunHasValidators(blocks: seq<Block>, hash: Tx -> Hash, r: Run)
    requires r in Exec(blocks, hash).runs
    ensures 3 <= r.stored && r.stored + 2 <= |blocks| && blocks[r.stored + 1].votes != []
  {
    hide Exec, Decision, Stored;
    ExactlyOnce(blocks, hash, r);
  }

  lemma StoredIsRun(blocks: seq<Block>, hash: Tx -> Hash, h: int, k: Hash)
    requires 3 <= h && h + 2 <= |blocks| && k in Stored(hash, blocks[h - 1].deliveries) && blocks[h + 1].votes != []
    ensures HasRun(Exec(blocks, hash).runs, h, k)
  {
    hide Exec, Decision, Stored;
    var tx, b := Stored(hash, blocks[h - 1].deliveries)[k], blocks[h + 1];
    var r := Run(h, h + 2, k, tx, Decision(b.results, k, b.votes));
    ExactlyOnce(blocks, hash, r);
    assert r in Exec(blocks, hash).runs;
  }

  /** ... and exactly one if and only if the second block after it has come with validators. */
  lemma RunsIffValidators(blocks: seq<Block>, hash: Tx -> Hash, h: int, k: Hash)
    requires 3 <= h <= |blocks| && k in Stored(hash, blocks[h - 1].deliveries)
    ensures HasRun(Exec(blocks, hash).runs, h, k) <==> h + 2 <= |blocks| && blocks[h + 1].votes != []
  {
    hide Exec, Stored;
    if HasRun(Exec(blocks, hash).runs, h, k) {
      var r :| r in Exec(blocks, hash).runs && r.stored == h && r.hash == k;
      RunHasValidators(blocks, hash, r);
    } else if h + 2 <= |blocks| && blocks[h + 1].votes != [] {
      StoredIsRun(blocks, hash, h, k);
    }
  }

  // ---------------------------------------------------------------- whole runs, from the blocks alone

  /** Every execution follows the signatures of its block: Yes or No if and only if more than two thirds of
      the power signed so in the first result for the transaction, Skip otherwise or without a result. */
  lemma RunFollowsSignatures(blocks: seq<Block>, hash: Tx -> Hash, r: Run, j: nat)
    requires r in Exec(blocks, hash).runs
    ensures 5 <= r.at == r.stored + 2 <= |blocks|
    ensures var results, vals := blocks[r.at - 1].results, blocks[r.at - 1].votes;
            && (Fits(vals) && FirstFor(results, r.hash, j) ==>
                 && (r.result == Yes <==> 3 * SignedPower(results[j].sigs, vals, Yes) > 2 * TotalSidePower(vals))
                 && (r.result == No <==> 3 * SignedPower(results[j].sigs, vals, No) > 2 * TotalSidePower(vals))
                 && r.result in {Yes, No, Skip})
            && ((forall i :: 0 <= i < |results| ==> results[i].txHash != r.hash) ==> r.result == Skip)
  {
    hide Exec, Decision, SignedPower, TotalSidePower, Fits, FirstFor, Stored;
    ExactlyOnce(blocks, hash, r);
    DecisionDecides(blocks[r.at - 1].results, r.hash, blocks[r.at - 1].votes);
  }

  predicate Storable(d: Delivery, hash: Tx -> Hash, k: Hash) {
    d.ok && true in d.sideMsgs && hash(d.tx) == k
  }

  /** The last successful delivery of a side transaction with the hash. */
  predicate LastAt(ds: seq<Delivery>, hash: Tx -> Hash, k: Hash, i: nat) {
    i < |ds| && Storable(ds[i], hash, k) && forall j :: i < j < |ds| ==> !Storable(ds[j], hash, k)
  }

  ghost predicate Delivered(ds: seq<Delivery>, hash: Tx -> Hash, k: Hash, tx: Tx) {
    exists i: nat :: LastAt(ds, hash, k, i) && ds[i].tx == tx
  }

  lemma LastAtStep(ds: seq<Delivery>, hash: Tx -> Hash, k: Hash, i: nat)
    requires ds != []
    ensures var n := |ds| - 1;
            LastAt(ds, hash, k, i) <==>
              if Storable(ds[n], hash, k) then i == n else LastAt(ds[..n], hash, k, i)
  {
    hide Storable;
    var n := |ds| - 1;
    assert forall j :: 0 <= j < n ==> ds[..n][j] == ds[j];
    assert LastAt(ds, hash, k, i) && i < n ==> !Storable(ds[n], hash, k);
  }

  lemma LastIsInside(ds: seq<Delivery>, hash: Tx -> Hash, k: Hash, i: nat)
    requires LastAt(ds, hash, k, i)
    ensures i < |ds|
  {
  }

  lemma {:induction false} LastIsStored(ds: seq<Delivery>, hash: Tx -> Hash, k: Hash, i: nat)
    ensures LastAt(ds, hash, k, i) ==> k in Stored(hash, ds) && Stored(hash, ds)[k] == ds[i].tx
    ensures k in Stored(hash, ds) ==> exists j: nat :: LastAt(ds, hash, k, j)
  {
    hide LastAt;
    if ds != [] {
      var n := |ds| - 1;
      LastAtStep(ds, hash, k, i);
      LastAtStep(ds, hash, k, n);
      LastIsStored(ds[..n], hash, k, i);
      if k in Stored(hash, ds[..n]) {
        var j: nat :| LastAt(ds[..n], hash, k, j);
        LastAtStep(ds, hash, k, j);
      }
      if LastAt(ds[..n], hash, k, i) {
        LastIsInside(ds[..n], hash, k, i);
      }
    } else if LastAt(ds, hash, k, i) {
      LastIsInside(ds, hash, k, i);
    }
  }

  lemma DeliveredIsStored(ds: seq<Delivery>, hash: Tx -> Hash, k: Hash, tx: Tx)
    ensures Delivered(ds, hash, k, tx) <==> k in Stored(hash, ds) && Stored(hash, ds)[k] == tx
  {
    hide Stored;
    LastIsStored(ds, hash, k, 0);
    if k in Stored(hash, ds) {
      var j: nat :| LastAt(ds, hash, k, j);
      LastIsStored(ds, hash, k, j);
    }
    if Delivered(ds, hash, k, tx) {
      var i: nat :| LastAt(ds, hash, k, i) && ds[i].tx == tx;
      LastIsStored(ds, hash, k, i);
    }
  }

  ghost predicate IsRun(runs: multiset<Run>, h: int, k: Hash, tx: Tx) {
    exists r :: r in runs && r.stored == h && r.hash == k && r.tx == tx
  }

  lemma RunIsDelivered(blocks: seq<Block>, hash: Tx -> Hash, r: Run)
    requires r in Exec(blocks, hash).runs
    ensures 3 <= r.stored && r.stored + 2 <= |blocks| && blocks[r.stored + 1].votes != []
    ensures Delivered(blocks[r.stored - 1].deliveries, hash, r.hash, r.tx)
  {
    hide Exec, Decision, Delivered, Stored;
    ExactlyOnce(blocks, hash, r);
    DeliveredIsStored(blocks[r.stored - 1].deliveries, hash, r.hash, r.tx);
  }

  lemma DeliveredIsRun(blocks: seq<Block>, hash: Tx -> Hash, h: nat, k: Hash, tx: Tx)
    requires 2 <= h && h + 2 < |blocks| && Delivered(blocks[h].deliveries, hash, k, tx) && blocks[h + 2].votes != []
    ensures IsRun(Exec(blocks, hash).runs, h + 1, k, tx)
  {
    hide Exec, Decision, Delivered, Stored;
    DeliveredIsStored(blocks[h].deliveries, hash, k, tx);
    var r := Run(h + 1, h + 3, k, tx, Decision(blocks[h + 2].results, k, blocks[h + 2].votes));
    ExactlyOnce(blocks, hash, r);
    assert r in Exec(blocks, hash).runs;
  }

  /** A transaction is run if and only if it was the last of its hash to be delivered successfully, with a side
      message, at a height above 2, and the second block after it has come with validators ... */
  lemma DeliveredIsRunIff(blocks: seq<Block>, hash: Tx -> Hash, h: nat, k: Hash, tx: Tx)
    requires h < |blocks|
    ensures IsRun(Exec(blocks, hash).runs, h + 1, k, tx)
       <==> h >= 2 && Delivered(blocks[h].deliveries, hash, k, tx) && h + 2 < |blocks| && blocks[h + 2].votes != []
  {
    hide Exec, Delivered;
    if IsRun(Exec(blocks, hash).runs, h + 1, k, tx) {
      var r :| r in Exec(blocks, hash).runs && r.stored == h + 1 && r.hash == k && r.tx == tx;
      RunIsDelivered(blocks, hash, r);
    } else if h >= 2 && Delivered(blocks[h].deliveries, hash, k, tx) && h + 2 < |blocks| && blocks[h + 2].votes != [] {
      DeliveredIsRun(blocks, hash, h, k, tx);
    }
  }

  /** ... and it waits if and only if it was delivered so and that block is still to come, or has come without. */
  lemma DeliveredWaitsIff(blocks: seq<Block>, hash: Tx -> Hash, h: nat, k: Hash, tx: Tx)
    requires h < |blocks|
    ensures var txs := Exec(blocks, hash).txs;
            (h + 1, k) in txs && txs[(h + 1, k)] == tx
            <==> && h >= 2 && Delivered(blocks[h].deliveries, hash, k, tx)
                 && (h + 2 < |blocks| ==> blocks[h + 2].votes == [])
  {
    hide Exec, Delivered, Stored;
    DeliveredIsStored(blocks[h].deliveries, hash, k, tx);
    ExecAgrees(blocks, hash);
    assert EntryAgrees(Exec(blocks, hash).txs, blocks, hash, (h + 1, k));
  }

  /** The validators of a height stay in the store exactly when its block had some and did not come to its end. */
  lemma {:induction false} ValidatorsLeft(blocks: seq<Block>, hash: Tx -> Hash, h: int)
    ensures var left := Exec(blocks, hash).validators;
            && (h in left <==> 1 <= h <= |blocks| && blocks[h - 1].votes != [] && !blocks[h - 1].ends)
            && (h in left ==> left[h] == blocks[h - 1].votes)
  {
    hide RunsOf, KeysAt, DeliverAll;
    if blocks != [] {
      var height, b := |blocks|, blocks[|blocks| - 1];
      var s := Exec(blocks[..height - 1], hash);
      ValidatorsLeft(blocks[..height - 1], hash, h);
      ValidatorsLeft(blocks[..height - 1], hash, height);
      DeliverAllStores(AfterSide(AfterBegin(s, height, b.votes), height, b.results), hash, height, b.deliveries);
    }
  }
}
