/** Checkpoints and their acknowledgements (checkpoint/handler.go, checkpoint/side_handler.go,
    checkpoint/keeper.go), against the headers that the root chain contract has accepted. */
module Checkpoints {
  import opened GoInt
  import opened Options
  import opened SideTx

  type RootHash = nat
  type Account = nat

  datatype RootChain = Tron | Eth | Bsc

  datatype Checkpoint = Checkpoint(startBlock: U64, endBlock: U64, rootHash: RootHash, proposer: Account,
    borChainId: nat, timeStamp: U64)

  datatype MsgCheckpoint = MsgCheckpoint(
    proposer: Account, startBlock: U64, endBlock: U64, rootHash: RootHash, accountRootHash: RootHash,
    borChainId: nat, epoch: U64, rootChain: RootChain)

  datatype MsgCheckpointAck = MsgCheckpointAck(
    number: U64, proposer: Account, startBlock: U64, endBlock: U64, rootHash: RootHash, rootChain: RootChain)

  /** A header block of the root chain contract; header number n is the n-th of its list. */
  datatype Header = Header(start: U64, end: U64, root: RootHash, proposer: Account)
  datatype Error = NoAck | OldCheckpoint | Discontinuous | BadBlockDetails | InvalidMsg | BadAck
  datatype Result = Ok | Err(error: Error)

  /** What the handlers read outside the checkpoint store. */
  datatype Context = Context(now: U64, bufferTime: U64, accountRoot: Option<RootHash>, proposer: Option<Account>)

  datatype Store = Store(ackCount: map<RootChain, U64>, checkpoints: map<(RootChain, U64), Checkpoint>,
    buffer: map<RootChain, Checkpoint>)

  // ---------------------------------------------------------------- what each message does

  function Acks(s: Store, c: RootChain): U64 {
    if c in s.ackCount then s.ackCount[c] else 0
  }

  /** The last block covered by a stored checkpoint. */
  function Tip(s: Store, c: RootChain): Option<U64> {
    if (c, Acks(s, c)) in s.checkpoints then Some(s.checkpoints[(c, Acks(s, c))].endBlock) else None
  }

  /** A checkpoint from `start` continues what is stored. */
  predicate Follows(s: Store, activation: U64, c: RootChain, start: U64) {
    match Tip(s, c)
    case Some(tip) => tip + 1 == start
    case None => start == activation
  }

  predicate Expired(buffered: Checkpoint, now: U64, bufferTime: U64) {
    buffered.timeStamp == 0 || (now > buffered.timeStamp && now - buffered.timeStamp >= bufferTime)
  }

  /** The checkpoint starts inside what is stored. */
  predicate Overlaps(s: Store, msg: MsgCheckpoint) {
    Tip(s, msg.rootChain).Some? && Tip(s, msg.rootChain).value > msg.startBlock
  }

  /** No checkpoint is buffered, or one that has waited too long. */
  predicate BufferIsFree(s: Store, ctx: Context, c: RootChain) {
    c in s.buffer ==> Expired(s.buffer[c], ctx.now, ctx.bufferTime)
  }

  predicate CheckpointPasses(s: Store, activation: U64, ctx: Context, msg: MsgCheckpoint) {
    && BufferIsFree(s, ctx, msg.rootChain)
    && Follows(s, activation, msg.rootChain, msg.startBlock)
    && ctx.accountRoot == Some(msg.accountRootHash)
    && ctx.proposer == Some(msg.proposer)
    && msg.epoch == WrapU64(Acks(s, Tron) + 1)
  }

  function AfterCheckpoint(s: Store, activation: U64, ctx: Context, msg: MsgCheckpoint): Store {
    if CheckpointPasses(s, activation, ctx, msg) then s.(buffer := s.buffer - {msg.rootChain}) else s
  }

  predicate PostCheckpointPasses(s: Store, activation: U64, msg: MsgCheckpoint, vote: Vote) {
    vote == Yes && Follows(s, activation, msg.rootChain, msg.startBlock) && msg.rootChain !in s.buffer
  }

  function AfterPostCheckpoint(s: Store, activation: U64, now: U64, msg: MsgCheckpoint, vote: Vote): Store {
    if PostCheckpointPasses(s, activation, msg, vote) then
      s.(buffer := s.buffer[msg.rootChain :=
        Checkpoint(msg.startBlock, msg.endBlock, msg.rootHash, msg.proposer, msg.borChainId, now)])
    else s
  }

  predicate AckMatches(buffered: Checkpoint, msg: MsgCheckpointAck) {
    msg.startBlock == buffered.startBlock && (msg.endBlock == buffered.endBlock ==> msg.rootHash == buffered.rootHash)
  }

  predicate AckPasses(s: Store, msg: MsgCheckpointAck) {
    msg.rootChain in s.buffer ==> AckMatches(s.buffer[msg.rootChain], msg)
  }

  predicate PostAckPasses(s: Store, msg: MsgCheckpointAck, vote: Vote) {
    vote == Yes && msg.rootChain in s.buffer && AckMatches(s.buffer[msg.rootChain], msg)
  }

  /** The buffered checkpoint, cut to the contract's header if that ends earlier. */
  function Acked(buffered: Checkpoint, msg: MsgCheckpointAck): Checkpoint {
    if buffered.endBlock > msg.endBlock then
      buffered.(endBlock := msg.endBlock, rootHash := msg.rootHash, proposer := msg.proposer)
    else buffered
  }

  function AfterPostAck(s: Store, msg: MsgCheckpointAck, vote: Vote): Store {
    var c := msg.rootChain;
    if PostAckPasses(s, msg, vote) then
      Store(
        s.ackCount[c := WrapU64(Acks(s, c) + 1)],
        s.checkpoints[(c, msg.number) := Acked(s.buffer[c], msg)],
        s.buffer - {c})
    else s
  }

  /** `stored` covers what both `buffered` and the header cover, from the same start: with the header's end it
      has the header's root, cut to it also its proposer, and all the rest as buffered. */
  predicate CutTo(buffered: Checkpoint, header: Header, stored: Checkpoint) {
    && stored.startBlock == buffered.startBlock == header.start
    && (stored.endBlock == header.end ==> stored.rootHash == header.root)
    && (buffered.endBlock <= header.end ==> stored == buffered)
    && (buffered.endBlock > header.end ==>
         stored == buffered.(endBlock := header.end, rootHash := header.root, proposer := header.proposer))
  }

  /** The checkpoint store. Each message's changes are undone when its handler refuses it. */
  class Keeper {
    var ackCount: map<RootChain, U64>
    var checkpoints: map<(RootChain, U64), Checkpoint>
    var buffer: map<RootChain, Checkpoint>

    ghost function Now(): Store
      reads this
    {
      Store(ackCount, checkpoints, buffer)
    }

    constructor ()
      ensures Now() == Store(map[], map[], map[])
    {
      ackCount, checkpoints, buffer := map[], map[], map[];
    }

    method GetACKCount(c: RootChain) returns (count: U64)
      ensures count == Acks(Now(), c)
    {
      count := if c in ackCount then ackCount[c] else 0;
    }

    method GetLastCheckpoint(c: RootChain) returns (last: Option<Checkpoint>)
      ensures last.Some? <==> (c, Acks(Now(), c)) in checkpoints
      ensures last.Some? ==> last.value == checkpoints[(c, Acks(Now(), c))]
      ensures last.Some? <==> Tip(Now(), c).Some?
      ensures last.Some? ==> Tip(Now(), c) == Some(last.value.endBlock)
    {
      var count := GetACKCount(c);
      last := if (c, count) in checkpoints then Some(checkpoints[(c, count)]) else None;
    }

    /** The continuity checks shared by both handlers of a checkpoint. */
    method CheckContinuity(activation: U64, msg: MsgCheckpoint) returns (result: Result)
      ensures result == Ok <==> Follows(Now(), activation, msg.rootChain, msg.startBlock)
      ensures result in {Ok, Err(OldCheckpoint), Err(Discontinuous), Err(BadBlockDetails)}
      ensures result == Err(BadBlockDetails) <==> Tip(Now(), msg.rootChain).None? && msg.startBlock != activation
      ensures result == Err(OldCheckpoint) <==> Overlaps(Now(), msg)
      ensures result == Err(OldCheckpoint) <==>
                Tip(Now(), msg.rootChain).Some? && Tip(Now(), msg.rootChain).value > msg.startBlock
    {
      var lastCheckpoint := GetLastCheckpoint(msg.rootChain);
      if lastCheckpoint.Some? {
        if lastCheckpoint.value.endBlock > msg.startBlock {
          return Err(OldCheckpoint);
        }
        if WrapU64(lastCheckpoint.value.endBlock + 1) != msg.startBlock {
          return Err(Discontinuous);
        }
      } else if activation != msg.startBlock {
        return Err(BadBlockDetails);
      }
      return Ok;
    }

    method HandleMsgCheckpoint(activation: U64, ctx: Context, msg: MsgCheckpoint) returns (result: Result)
      modifies this`buffer
      ensures result == Ok <==> old(CheckpointPasses(Now(), activation, ctx, msg))
      ensures result == Ok ==> Now() == AfterCheckpoint(old(Now()), activation, ctx, msg)
      ensures result == Err(NoAck) <==> !old(BufferIsFree(Now(), ctx, msg.rootChain))
      ensures result == Err(OldCheckpoint) <==> old(BufferIsFree(Now(), ctx, msg.rootChain) && Overlaps(Now(), msg))
      ensures result == Err(Discontinuous) <==>
                old(BufferIsFree(Now(), ctx, msg.rootChain) && Tip(Now(), msg.rootChain).Some?
                    && !Overlaps(Now(), msg) && !Follows(Now(), activation, msg.rootChain, msg.startBlock))
      ensures result == Err(InvalidMsg) <==>
                && old(BufferIsFree(Now(), ctx, msg.rootChain))
                && old(Follows(Now(), activation, msg.rootChain, msg.startBlock))
                && ctx.accountRoot == Some(msg.accountRootHash) && !old(CheckpointPasses(Now(), activation, ctx, msg))
      ensures result != Err(BadAck)
      ensures buffer == old(buffer) || buffer == old(buffer) - {msg.rootChain}
    {
      if msg.rootChain in buffer {
        var buffered := buffer[msg.rootChain];
        if buffered.timeStamp == 0 || (ctx.now > buffered.timeStamp && ctx.now - buffered.timeStamp >= ctx.bufferTime) {
          buffer := buffer - {msg.rootChain};
        } else {
          return Err(NoAck);
        }
      }
      result := CheckContinuity(activation, msg);
      if result != Ok {
        return;
      }
      if ctx.accountRoot.None? || ctx.accountRoot.value != msg.accountRootHash {
        return Err(BadBlockDetails);
      }
      if ctx.proposer.None? || ctx.proposer.value != msg.proposer {
        return Err(InvalidMsg);
      }
      var stakeAcks := GetACKCount(Tron);
      if WrapU64(stakeAcks as int + 1) != msg.epoch {
        return Err(InvalidMsg);
      }
      assert buffer == old(buffer) - {msg.rootChain};
      return Ok;
    }

    method DeliverCheckpoint(activation: U64, ctx: Context, msg: MsgCheckpoint) returns (result: Result)
      modifies this`buffer
      ensures result == Ok <==> old(CheckpointPasses(Now(), activation, ctx, msg))
      ensures Now() == AfterCheckpoint(old(Now()), activation, ctx, msg)
      ensures buffer == if result == Ok then old(buffer) - {msg.rootChain} else old(buffer)
    {
      var before := buffer;
      result := HandleMsgCheckpoint(activation, ctx, msg);
      if result != Ok {
        buffer := before;
      }
    }

    method PostHandleMsgCheckpoint(activation: U64, now: U64, msg: MsgCheckpoint, vote: Vote) returns (result: Result)
      modifies this`buffer
      ensures result == Ok <==> old(PostCheckpointPasses(Now(), activation, msg, vote))
      ensures Now() == AfterPostCheckpoint(old(Now()), activation, now, msg, vote)
      ensures result == Ok ==>
                buffer == old(buffer)[msg.rootChain :=
                  Checkpoint(msg.startBlock, msg.endBlock, msg.rootHash, msg.proposer, msg.borChainId, now)]
      ensures result != Ok ==> buffer == old(buffer)
      ensures result == Err(NoAck) <==>
                && vote == Yes && msg.rootChain in old(buffer)
                && old(Follows(Now(), activation, msg.rootChain, msg.startBlock))
    {
      if vote != Yes {
        return Err(BadBlockDetails);
      }
      result := CheckContinuity(activation, msg);
      if result != Ok {
        return;
      }
      if msg.rootChain in buffer {
        return Err(NoAck);
      }
      buffer := buffer[msg.rootChain :=
        Checkpoint(msg.startBlock, msg.endBlock, msg.rootHash, msg.proposer, msg.borChainId, now)];
      return Ok;
    }

    method HandleMsgCheckpointAck(msg: MsgCheckpointAck) returns (result: Result)
      ensures result == Ok <==> AckPasses(Now(), msg)
      ensures result == Ok <==> (msg.rootChain in buffer ==>
                && msg.startBlock == buffer[msg.rootChain].startBlock
                && (msg.endBlock == buffer[msg.rootChain].endBlock ==> msg.rootHash == buffer[msg.rootChain].rootHash))
    {
      if msg.rootChain in buffer {
        var headerBlock := buffer[msg.rootChain];
        if msg.startBlock != headerBlock.startBlock {
          return Err(BadAck);
        }
        if && msg.startBlock == headerBlock.startBlock && msg.endBlock == headerBlock.endBlock
           && msg.rootHash != headerBlock.rootHash {
          return Err(BadAck);
        }
      }
      return Ok;
    }

    method PostHandleMsgCheckpointAck(msg: MsgCheckpointAck, vote: Vote) returns (result: Result)
      modifies this
      ensures result == Ok <==> old(PostAckPasses(Now(), msg, vote))
      ensures result == Ok <==>
                && vote == Yes && msg.rootChain in old(buffer)
                && msg.startBlock == old(buffer)[msg.rootChain].startBlock
                && (msg.endBlock == old(buffer)[msg.rootChain].endBlock ==>
                     msg.rootHash == old(buffer)[msg.rootChain].rootHash)
      ensures Now() == AfterPostAck(old(Now()), msg, vote)
      ensures result != Ok ==> Now() == old(Now())
      ensures result == Ok ==>
        && buffer == old(buffer) - {msg.rootChain}
        && Acks(Now(), msg.rootChain) == WrapU64(old(Acks(Now(), msg.rootChain)) + 1)
        && msg.rootChain in old(buffer) && (msg.rootChain, msg.number) in checkpoints
        && CutTo(old(buffer)[msg.rootChain], Header(msg.startBlock, msg.endBlock, msg.rootHash, msg.proposer),
             checkpoints[(msg.rootChain, msg.number)])
        && checkpoints - {(msg.rootChain, msg.number)} == old(checkpoints) - {(msg.rootChain, msg.number)}
    {
      if vote != Yes {
        return Err(BadBlockDetails);
      }
      if msg.rootChain !in buffer {
        return Err(BadAck);
      }
      var checkpointObj := buffer[msg.rootChain];
      if msg.startBlock != checkpointObj.startBlock {
        return Err(BadAck);
      }
      if && msg.startBlock == checkpointObj.startBlock && msg.endBlock == checkpointObj.endBlock
         && msg.rootHash != checkpointObj.rootHash {
        return Err(BadAck);
      }
      if checkpointObj.endBlock > msg.endBlock {
        checkpointObj := checkpointObj.(endBlock := msg.endBlock);
        checkpointObj := checkpointObj.(rootHash := msg.rootHash);
        checkpointObj := checkpointObj.(proposer := msg.proposer);
      }
      checkpoints := checkpoints[(msg.rootChain, msg.number) := checkpointObj];
      var count := GetACKCount(msg.rootChain);
      ackCount := ackCount[msg.rootChain := WrapU64(count as int + 1)];
      buffer := buffer - {msg.rootChain};
      return Ok;
    }
  }

  // ---------------------------------------------------------------- runs against a contract

  /** The contract's headers follow each other from the activation height on. */
  predicate Contiguous(headers: seq<Header>, activation: U64) {
    && (forall i :: 0 <= i < |headers| ==> headers[i].start <= headers[i].end)
    && (headers != [] ==> headers[0].start == activation)
    && (forall i :: 0 < i < |headers| ==> headers[i].start == headers[i - 1].end + 1)
  }

  /** The side handler of an acknowledgement says Yes to this. */
  predicate Confirmed(headers: seq<Header>, msg: MsgCheckpointAck) {
    && 1 <= msg.number <= |headers|
    && headers[msg.number - 1] == Header(msg.startBlock, msg.endBlock, msg.rootHash, msg.proposer)
  }

  datatype Op =
    | Submit(ctx: Context, checkpoint: MsgCheckpoint)
    | Buffer(now: U64, checkpoint: MsgCheckpoint, vote: Vote)
    | Acknowledge(ack: MsgCheckpointAck, vote: Vote)

  /** Stateless validation of the message, and the oracle's part in a Yes. */
  predicate Admissible(op: Op, headers: RootChain -> seq<Header>) {
    match op
    case Submit(_, msg) => msg.startBlock < msg.endBlock
    case Buffer(_, msg, _) => msg.startBlock < msg.endBlock
    case Acknowledge(msg, vote) => vote == Yes ==> Confirmed(headers(msg.rootChain), msg)
  }

  function Apply(s: Store, op: Op, activation: RootChain -> U64): Store {
    match op
    case Submit(ctx, msg) => AfterCheckpoint(s, activation(msg.rootChain), ctx, msg)
    case Buffer(now, msg, vote) => AfterPostCheckpoint(s, activation(msg.rootChain), now, msg, vote)
    case Acknowledge(msg, vote) => AfterPostAck(s, msg, vote)
  }

  function Run(s: Store, ops: seq<Op>, activation: RootChain -> U64): Store {
    if ops == [] then s else Apply(Run(s, ops[..|ops| - 1], activation), ops[|ops| - 1], activation)
  }

  /** Checkpoint k is header k, except that the last may have been stored with an earlier end. */
  predicate Stored(s: Store, headers: seq<Header>, c: RootChain, k: U64) {
    if 1 <= k <= Acks(s, c) then
      && k <= |headers| && (c, k) in s.checkpoints
      && s.checkpoints[(c, k)].startBlock == headers[k - 1].start
      && s.checkpoints[(c, k)].startBlock <= s.checkpoints[(c, k)].endBlock <= headers[k - 1].end
      && (k < Acks(s, c) ==> s.checkpoints[(c, k)].endBlock == headers[k - 1].end)
    else (c, k) !in s.checkpoints
  }

  /** The invariant: a buffered checkpoint starts where the stored ones stop. */
  ghost predicate Sound(s: Store, headers: seq<Header>, activation: U64, c: RootChain) {
    && (forall k :: Stored(s, headers, c, k))
    && (c in s.buffer ==> && Follows(s, activation, c, s.buffer[c].startBlock)
                          && s.buffer[c].startBlock < s.buffer[c].endBlock)
  }

  lemma {:induction false} StartsIncrease(headers: seq<Header>, activation: U64, i: nat, j: nat)
    requires Contiguous(headers, activation) && i < j < |headers|
    ensures headers[i].end < headers[j].start
    decreases j
  {
    if i < j - 1 {
      StartsIncrease(headers, activation, i, j - 1);
    }
  }

  lemma AcksWithin(s: Store, headers: seq<Header>, activation: U64, c: RootChain)
    requires Sound(s, headers, activation, c)
    ensures Acks(s, c) <= |headers|
    ensures Tip(s, c).None? <==> Acks(s, c) == 0
  {
    assert Stored(s, headers, c, Acks(s, c));
  }

  /** The stored checkpoints cover their headers to the end. */
  predicate Complete(s: Store, headers: seq<Header>, c: RootChain) {
    var n := Acks(s, c);
    n == 0 || (n <= |headers| && (c, n) in s.checkpoints && s.checkpoints[(c, n)].endBlock == headers[n - 1].end)
  }

  /** An accepted acknowledgement carries the next number. */
  lemma AcceptedAckIsNext(s: Store, headers: seq<Header>, activation: U64, msg: MsgCheckpointAck, vote: Vote)
    requires Contiguous(headers, activation) && Sound(s, headers, activation, msg.rootChain)
    requires PostAckPasses(s, msg, vote) && Confirmed(headers, msg)
    ensures msg.number == Acks(s, msg.rootChain) + 1
    ensures Complete(s, headers, msg.rootChain)
  {
    var n := Acks(s, msg.rootChain);
    AcksWithin(s, headers, activation, msg.rootChain);
    assert Stored(s, headers, msg.rootChain, n);
    if msg.number < n {
      StartsIncrease(headers, activation, msg.number - 1, n - 1);
    } else if n + 1 < msg.number {
      StartsIncrease(headers, activation, n, msg.number - 1);
    }
  }

  lemma AckKeepsSound(s: Store, headers: seq<Header>, activation: U64, msg: MsgCheckpointAck, vote: Vote)
    requires |headers| < MAX_UINT64
    requires Contiguous(headers, activation) && Sound(s, headers, activation, msg.rootChain)
    requires vote == Yes ==> Confirmed(headers, msg)
    ensures Sound(AfterPostAck(s, msg, vote), headers, activation, msg.rootChain)
  {
    var t, c := AfterPostAck(s, msg, vote), msg.rootChain;
    if PostAckPasses(s, msg, vote) {
      AcceptedAckIsNext(s, headers, activation, msg, vote);
      AcksWithin(s, headers, activation, c);
      forall k
        ensures Stored(t, headers, c, k)
      {
        assert Stored(s, headers, c, k);
      }
    }
  }

  lemma CheckpointKeepsSound(s: Store, t: Store, headers: seq<Header>, activation: U64, c: RootChain)
    requires Sound(s, headers, activation, c)
    requires t.ackCount == s.ackCount && t.checkpoints == s.checkpoints
    requires c in t.buffer ==> Follows(s, activation, c, t.buffer[c].startBlock)
    requires c in t.buffer ==> t.buffer[c].startBlock < t.buffer[c].endBlock
    ensures Sound(t, headers, activation, c)
  {
    forall k
      ensures Stored(t, headers, c, k)
    {
      assert Stored(s, headers, c, k);
    }
  }

  /** A message for one root chain leaves the others alone. */
  lemma OtherChainsKeep(s: Store, t: Store, headers: seq<Header>, activation: U64, c: RootChain)
    requires Sound(s, headers, activation, c) && Acks(t, c) == Acks(s, c)
    requires forall k :: (c, k) in t.checkpoints <==> (c, k) in s.checkpoints
    requires forall k :: (c, k) in t.checkpoints ==> t.checkpoints[(c, k)] == s.checkpoints[(c, k)]
    requires c in t.buffer <==> c in s.buffer
    requires c in t.buffer ==> t.buffer[c] == s.buffer[c]
    ensures Sound(t, headers, activation, c)
  {
    forall k
      ensures Stored(t, headers, c, k)
    {
      assert Stored(s, headers, c, k);
    }
  }

  lemma StepKeepsSound(s: Store, op: Op, headers: RootChain -> seq<Header>, activation: RootChain -> U64, c: RootChain)
    requires Admissible(op, headers) && |headers(c)| < MAX_UINT64
    requires Contiguous(headers(c), activation(c)) && Sound(s, headers(c), activation(c), c)
    ensures Sound(Apply(s, op, activation), headers(c), activation(c), c)
  {
    hide Stored, Follows;
    var t := Apply(s, op, activation);
    match op
    case Submit(ctx, msg) =>
      CheckpointKeepsSound(s, t, headers(c), activation(c), c);
    case Buffer(now, msg, vote) =>
      CheckpointKeepsSound(s, t, headers(c), activation(c), c);
    case Acknowledge(msg, vote) =>
      if msg.rootChain == c {
        AckKeepsSound(s, headers(c), activation(c), msg, vote);
      } else {
        OtherChainsKeep(s, t, headers(c), activation(c), c);
      }
  }

  /** In every state that messages, timeouts and votes can reach, in any order ... */
  lemma {:induction false} RunsAreSound(s: Store, ops: seq<Op>, headers: RootChain -> seq<Header>,
      activation: RootChain -> U64, c: RootChain)
    requires forall i :: 0 <= i < |ops| ==> Admissible(ops[i], headers)
    requires Contiguous(headers(c), activation(c)) && |headers(c)| < MAX_UINT64
    requires Sound(s, headers(c), activation(c), c)
    ensures Sound(Run(s, ops, activation), headers(c), activation(c), c)
  {
    if ops != [] {
      var n := |ops| - 1;
      RunsAreSound(s, ops[..n], headers, activation, c);
      StepKeepsSound(Run(s, ops[..n], activation), ops[n], headers, activation, c);
    }
  }

  lemma EmptyIsSound(headers: seq<Header>, activation: U64, c: RootChain)
    ensures Sound(Store(map[], map[], map[]), headers, activation, c)
  {
  }

  /** ... the stored checkpoints are those numbered 1 to the ack count, without a gap. */
  lemma StoredAreContiguous(ops: seq<Op>, headers: RootChain -> seq<Header>, activation: RootChain -> U64, c: RootChain)
    requires forall i :: 0 <= i < |ops| ==> Admissible(ops[i], headers)
    requires Contiguous(headers(c), activation(c)) && |headers(c)| < MAX_UINT64
    ensures var s := Run(Store(map[], map[], map[]), ops, activation);
            && (forall k: U64 :: (c, k) in s.checkpoints <==> 1 <= k <= Acks(s, c))
            && ((c, 1) in s.checkpoints ==> s.checkpoints[(c, 1)].startBlock == activation(c))
            && (forall k: U64 :: 1 <= k < Acks(s, c) ==>
                  s.checkpoints[(c, k + 1)].startBlock == s.checkpoints[(c, k)].endBlock + 1)
  {
    var s := Run(Store(map[], map[], map[]), ops, activation);
    EmptyIsSound(headers(c), activation(c), c);
    RunsAreSound(Store(map[], map[], map[]), ops, headers, activation, c);
    forall k: U64
      ensures (c, k) in s.checkpoints <==> 1 <= k <= Acks(s, c)
    {
      assert Stored(s, headers(c), c, k);
    }
    assert Stored(s, headers(c), c, 1);
    forall k: U64 | 1 <= k < Acks(s, c)
      ensures s.checkpoints[(c, k + 1)].startBlock == s.checkpoints[(c, k)].endBlock + 1
    {
      assert Stored(s, headers(c), c, k) && Stored(s, headers(c), c, k + 1);
    }
  }

  /** The stored checkpoints of chain c are those numbered 1 to n. */
  ghost predicate Numbered(s: Store, c: RootChain, n: nat) {
    n <= MAX_UINT64 && forall k: U64 :: (c, k) in s.checkpoints <==> 1 <= k <= n
  }

  lemma CountIsAcks(s: Store, headers: seq<Header>, activation: U64, c: RootChain, n: nat)
    requires |headers| < MAX_UINT64 && Sound(s, headers, activation, c) && Numbered(s, c, n)
    ensures n == Acks(s, c) < MAX_UINT64
  {
    AcksWithin(s, headers, activation, c);
    var a := Acks(s, c);
    assert Stored(s, headers, c, a) && Stored(s, headers, c, n);
  }

  /** The start that continues n stored checkpoints. */
  predicate Continues(s: Store, activation: U64, c: RootChain, n: U64, start: U64) {
    if n == 0 then start == activation
    else (c, n) in s.checkpoints && start == s.checkpoints[(c, n)].endBlock + 1
  }

  /** When n checkpoints of its chain are stored and m of the stake chain, a message passes the handler if and
      only if it continues the n, is of epoch m + 1, has the account root and the proposer of the node, and
      whatever is buffered has waited long enough; and it is buffered after the vote if and only if that is Yes,
      it continues the n, and nothing is buffered. */
  lemma SubmissionPassesIff(ops: seq<Op>, headers: RootChain -> seq<Header>, activation: RootChain -> U64,
      ctx: Context, msg: MsgCheckpoint, vote: Vote, n: nat, m: nat)
    requires forall i :: 0 <= i < |ops| ==> Admissible(ops[i], headers)
    requires forall c :: Contiguous(headers(c), activation(c)) && |headers(c)| < MAX_UINT64
    requires Numbered(Run(Store(map[], map[], map[]), ops, activation), msg.rootChain, n)
    requires Numbered(Run(Store(map[], map[], map[]), ops, activation), Tron, m)
    ensures var s, c := Run(Store(map[], map[], map[]), ops, activation), msg.rootChain;
            && (CheckpointPasses(s, activation(c), ctx, msg) <==>
                 && (c in s.buffer && s.buffer[c].timeStamp > 0 ==>
                      ctx.now >= s.buffer[c].timeStamp + if ctx.bufferTime == 0 then 1 else ctx.bufferTime)
                 && Continues(s, activation(c), c, n, msg.startBlock) && msg.epoch == m + 1
                 && ctx.accountRoot == Some(msg.accountRootHash) && ctx.proposer == Some(msg.proposer))
            && (PostCheckpointPasses(s, activation(c), msg, vote) <==>
                 vote == Yes && Continues(s, activation(c), c, n, msg.startBlock) && c !in s.buffer)
  {
    hide Run, Sound, Contiguous, Admissible, Numbered;
    var empty := Store(map[], map[], map[]);
    var s, c := Run(empty, ops, activation), msg.rootChain;
    EmptyIsSound(headers(c), activation(c), c);
    EmptyIsSound(headers(Tron), activation(Tron), Tron);
    RunsAreSound(empty, ops, headers, activation, c);
    RunsAreSound(empty, ops, headers, activation, Tron);
    CountIsAcks(s, headers(c), activation(c), c, n);
    CountIsAcks(s, headers(Tron), activation(Tron), Tron, m);
    AcksWithin(s, headers(c), activation(c), c);
  }

  // ---------------------------------------------------------------- where checkpoints come from

  /** The checkpoint of a message that has been voted in. */
  predicate VotedIn(op: Op, c: RootChain, b: Checkpoint) {
    op.Buffer? && op.vote == Yes &&
    var msg := op.checkpoint;
    && msg.rootChain == c
    && b == Checkpoint(msg.startBlock, msg.endBlock, msg.rootHash, msg.proposer, msg.borChainId, op.now)
  }

  ghost predicate WasVotedIn(ops: seq<Op>, c: RootChain, b: Checkpoint) {
    exists i :: 0 <= i < |ops| && VotedIn(ops[i], c, b)
  }

  /** A voted-in checkpoint, as it is or cut to the contract's header. */
  ghost predicate Originates(ops: seq<Op>, c: RootChain, header: Header, stored: Checkpoint) {
    exists b :: WasVotedIn(ops, c, b) && CutTo(b, header, stored)
  }

  ghost predicate OriginAt(s: Store, ops: seq<Op>, headers: seq<Header>, c: RootChain, k: U64) {
    1 <= k <= Acks(s, c) && k <= |headers| && (c, k) in s.checkpoints ==>
      Originates(ops, c, headers[k - 1], s.checkpoints[(c, k)])
  }

  ghost predicate Origins(s: Store, ops: seq<Op>, headers: seq<Header>, c: RootChain) {
    && (c in s.buffer ==> WasVotedIn(ops, c, s.buffer[c]))
    && forall k: U64 :: OriginAt(s, ops, headers, c, k)
  }

  lemma OriginsStay(ops: seq<Op>, op: Op, c: RootChain, header: Header)
    ensures forall b :: WasVotedIn(ops, c, b) ==> WasVotedIn(ops + [op], c, b)
    ensures forall stored :: Originates(ops, c, header, stored) ==> Originates(ops + [op], c, header, stored)
    ensures forall b :: VotedIn(op, c, b) ==> WasVotedIn(ops + [op], c, b)
  {
    forall b | WasVotedIn(ops, c, b)
      ensures WasVotedIn(ops + [op], c, b)
    {
      var i :| 0 <= i < |ops| && VotedIn(ops[i], c, b);
      assert (ops + [op])[i] == ops[i];
    }
    assert (ops + [op])[|ops|] == op;
  }

  /** What an accepted acknowledgement stores is what it found in the buffer, cut to its header. */
  lemma AckCuts(s: Store, headers: seq<Header>, activation: U64, msg: MsgCheckpointAck, vote: Vote)
    requires Contiguous(headers, activation) && Sound(s, headers, activation, msg.rootChain) && |headers| < MAX_UINT64
    requires PostAckPasses(s, msg, vote) && Confirmed(headers, msg)
    ensures var c, n := msg.rootChain, Acks(s, msg.rootChain) + 1;
            var t := AfterPostAck(s, msg, vote);
            && n <= |headers| && Acks(t, c) == n && (c, n) in t.checkpoints
            && CutTo(s.buffer[c], headers[n - 1], t.checkpoints[(c, n)])
  {
    AcceptedAckIsNext(s, headers, activation, msg, vote);
  }

  lemma OriginsKeep(s: Store, t: Store, ops: seq<Op>, op: Op, headers: seq<Header>, c: RootChain)
    requires Origins(s, ops, headers, c)
    requires Acks(t, c) == Acks(s, c)
    requires forall k :: (c, k) in t.checkpoints <==> (c, k) in s.checkpoints
    requires forall k :: (c, k) in t.checkpoints ==> t.checkpoints[(c, k)] == s.checkpoints[(c, k)]
    requires c in t.buffer ==> (c in s.buffer && t.buffer[c] == s.buffer[c]) || VotedIn(op, c, t.buffer[c])
    ensures Origins(t, ops + [op], headers, c)
  {
    hide WasVotedIn, Originates, VotedIn, Acks;
    OriginsStay(ops, op, c, Header(0, 0, 0, 0));
    forall k: U64
      ensures OriginAt(t, ops + [op], headers, c, k)
    {
      assert OriginAt(s, ops, headers, c, k);
      if 1 <= k <= |headers| {
        OriginsStay(ops, op, c, headers[k - 1]);
      }
    }
  }

  lemma CutOriginates(ops: seq<Op>, c: RootChain, header: Header, b: Checkpoint, stored: Checkpoint)
    requires WasVotedIn(ops, c, b) && CutTo(b, header, stored)
    ensures Originates(ops, c, header, stored)
  {
  }

  lemma AckHasOrigins(s: Store, ops: seq<Op>, op: Op, headers: seq<Header>, activation: U64)
    requires op.Acknowledge? && |headers| < MAX_UINT64 && Contiguous(headers, activation)
    requires Sound(s, headers, activation, op.ack.rootChain) && Origins(s, ops, headers, op.ack.rootChain)
    requires PostAckPasses(s, op.ack, op.vote) && Confirmed(headers, op.ack)
    ensures Origins(AfterPostAck(s, op.ack, op.vote), ops + [op], headers, op.ack.rootChain)
  {
    hide WasVotedIn, Originates, CutTo, Contiguous, Sound;
    var c, n, t := op.ack.rootChain, Acks(s, op.ack.rootChain), AfterPostAck(s, op.ack, op.vote);
    AckCuts(s, headers, activation, op.ack, op.vote);
    AcceptedAckIsNext(s, headers, activation, op.ack, op.vote);
    OriginsStay(ops, op, c, headers[n]);
    CutOriginates(ops + [op], c, headers[n], s.buffer[c], t.checkpoints[(c, n + 1)]);
    forall k: U64
      ensures OriginAt(t, ops + [op], headers, c, k)
    {
      assert OriginAt(s, ops, headers, c, k);
      if 1 <= k <= n {
        OriginsStay(ops, op, c, headers[k - 1]);
      }
    }
  }

  lemma OriginsStep(s: Store, ops: seq<Op>, op: Op, headers: RootChain -> seq<Header>, activation: RootChain -> U64,
      c: RootChain)
    requires Admissible(op, headers) && |headers(c)| < MAX_UINT64
    requires Contiguous(headers(c), activation(c)) && Sound(s, headers(c), activation(c), c)
    requires Origins(s, ops, headers(c), c)
    ensures Origins(Apply(s, op, activation), ops + [op], headers(c), c)
  {
    hide Sound, Follows, Origins, Contiguous, CheckpointPasses, AckMatches;
    match op
    case Submit(_, _) =>
      OriginsKeep(s, Apply(s, op, activation), ops, op, headers(c), c);
    case Buffer(_, _, _) =>
      OriginsKeep(s, Apply(s, op, activation), ops, op, headers(c), c);
    case Acknowledge(msg, vote) =>
      if msg.rootChain == c && PostAckPasses(s, msg, vote) {
        AckHasOrigins(s, ops, op, headers(c), activation(c));
      } else {
        OriginsKeep(s, Apply(s, op, activation), ops, op, headers(c), c);
      }
  }

  lemma NoOrigins(headers: seq<Header>, c: RootChain)
    ensures Origins(Store(map[], map[], map[]), [], headers, c)
  {
  }

  lemma {:induction false} RunsHaveOrigins(ops: seq<Op>, headers: RootChain -> seq<Header>,
      activation: RootChain -> U64, c: RootChain)
    requires forall i :: 0 <= i < |ops| ==> Admissible(ops[i], headers)
    requires Contiguous(headers(c), activation(c)) && |headers(c)| < MAX_UINT64
    ensures Origins(Run(Store(map[], map[], map[]), ops, activation), ops, headers(c), c)
  {
    hide Sound, Origins, Contiguous, Apply, Admissible;
    var empty := Store(map[], map[], map[]);
    if ops == [] {
      NoOrigins(headers(c), c);
    } else {
      var n := |ops| - 1;
      RunsHaveOrigins(ops[..n], headers, activation, c);
      EmptyIsSound(headers(c), activation(c), c);
      RunsAreSound(empty, ops[..n], headers, activation, c);
      OriginsStep(Run(empty, ops[..n], activation), ops[..n], ops[n], headers, activation, c);
      assert ops[..n] + [ops[n]] == ops;
    }
  }

  lemma StoredAt(s: Store, headers: seq<Header>, activation: U64, c: RootChain, k: U64)
    requires Sound(s, headers, activation, c) && 1 <= k <= Acks(s, c)
    ensures k <= |headers| && (c, k) in s.checkpoints
  {
    assert Stored(s, headers, c, k);
  }

  /** Over every run from the empty store: each stored checkpoint is one that was voted in, as it was or cut
      to the contract's header; with the header's end it has the header's root. */
  lemma StoredOriginate(ops: seq<Op>, headers: RootChain -> seq<Header>, activation: RootChain -> U64, c: RootChain,
      k: U64)
    requires forall i :: 0 <= i < |ops| ==> Admissible(ops[i], headers)
    requires Contiguous(headers(c), activation(c)) && |headers(c)| < MAX_UINT64
    requires 1 <= k <= Acks(Run(Store(map[], map[], map[]), ops, activation), c)
    ensures var s := Run(Store(map[], map[], map[]), ops, activation);
            && k <= |headers(c)| && (c, k) in s.checkpoints
            && var stored, header := s.checkpoints[(c, k)], headers(c)[k - 1];
               && (stored.endBlock == header.end ==> stored.rootHash == header.root)
               && (exists b :: WasVotedIn(ops, c, b) && b.startBlock == header.start &&
                    stored == if b.endBlock <= header.end then b
                              else Checkpoint(b.startBlock, header.end, header.root, header.proposer, b.borChainId,
                                     b.timeStamp))
  {
    hide Sound, Run, WasVotedIn, Contiguous, Admissible;
    var empty := Store(map[], map[], map[]);
    var s := Run(empty, ops, activation);
    EmptyIsSound(headers(c), activation(c), c);
    RunsAreSound(empty, ops, headers, activation, c);
    RunsHaveOrigins(ops, headers, activation, c);
    StoredAt(s, headers(c), activation(c), c, k);
    assert OriginAt(s, ops, headers(c), c, k);
    var b :| WasVotedIn(ops, c, b) && CutTo(b, headers(c)[k - 1], s.checkpoints[(c, k)]);
  }

  // ---------------------------------------------------------------- when acknowledgements stop

  /** Storing a checkpoint keeps the store complete exactly when the buffered one reached at
      least as far as the contract's header. */
  lemma AckCompletesIff(s: Store, headers: seq<Header>, activation: U64, msg: MsgCheckpointAck)
    requires |headers| < MAX_UINT64
    requires Contiguous(headers, activation) && Sound(s, headers, activation, msg.rootChain)
    requires PostAckPasses(s, msg, Yes) && Confirmed(headers, msg)
    ensures Complete(AfterPostAck(s, msg, Yes), headers, msg.rootChain) <==>
              s.buffer[msg.rootChain].endBlock >= msg.endBlock
  {
    AcceptedAckIsNext(s, headers, activation, msg, Yes);
  }

  /** The same end means the same root. */
  predicate AgreesWith(buffered: Checkpoint, header: Header) {
    buffered.endBlock == header.end ==> buffered.rootHash == header.root
  }

  /** A further acknowledgement can be accepted if and only if the store is complete and a
      checkpoint is buffered that does not contradict the next header. */
  lemma NextAckIff(s: Store, headers: seq<Header>, activation: U64, c: RootChain)
    requires Contiguous(headers, activation) && Sound(s, headers, activation, c)
    requires Acks(s, c) < |headers| < MAX_UINT64
    ensures (exists msg: MsgCheckpointAck :: msg.rootChain == c && Confirmed(headers, msg) &&
              PostAckPasses(s, msg, Yes))
            <==> Complete(s, headers, c) && c in s.buffer && AgreesWith(s.buffer[c], headers[Acks(s, c)])
  {
    var n := Acks(s, c);
    if Complete(s, headers, c) && c in s.buffer && AgreesWith(s.buffer[c], headers[n]) {
      var h := headers[n];
      var msg := MsgCheckpointAck(n + 1, h.proposer, h.start, h.end, h.root, c);
      assert Stored(s, headers, c, n);
      assert Confirmed(headers, msg) && PostAckPasses(s, msg, Yes);
    }
    if msg: MsgCheckpointAck :| msg.rootChain == c && Confirmed(headers, msg) && PostAckPasses(s, msg, Yes) {
      AcceptedAckIsNext(s, headers, activation, msg, Yes);
    }
  }

  lemma ShortStep(s: Store, op: Op, headers: RootChain -> seq<Header>, activation: RootChain -> U64, c: RootChain)
    requires Admissible(op, headers) && Contiguous(headers(c), activation(c))
    requires Sound(s, headers(c), activation(c), c) && !Complete(s, headers(c), c)
    ensures Acks(Apply(s, op, activation), c) == Acks(s, c)
    ensures !Complete(Apply(s, op, activation), headers(c), c)
  {
    if op.Acknowledge? && op.ack.rootChain == c && PostAckPasses(s, op.ack, op.vote) {
      AcceptedAckIsNext(s, headers(c), activation(c), op.ack, op.vote);
    }
  }

  /** Once a checkpoint has been stored short of its header, the ack count never moves again. */
  lemma {:induction false} ShortCheckpointBlocks(s: Store, ops: seq<Op>, headers: RootChain -> seq<Header>,
      activation: RootChain -> U64, c: RootChain)
    requires forall i :: 0 <= i < |ops| ==> Admissible(ops[i], headers)
    requires Contiguous(headers(c), activation(c)) && |headers(c)| < MAX_UINT64
    requires Sound(s, headers(c), activation(c), c) && !Complete(s, headers(c), c)
    ensures Acks(Run(s, ops, activation), c) == Acks(s, c)
    ensures !Complete(Run(s, ops, activation), headers(c), c)
  {
    if ops != [] {
      var n := |ops| - 1;
      ShortCheckpointBlocks(s, ops[..n], headers, activation, c);
      RunsAreSound(s, ops[..n], headers, activation, c);
      ShortStep(Run(s, ops[..n], activation), ops[n], headers, activation, c);
      hide Sound, Complete, Apply;
    }
  }

  /** It happens: blocks 0 to 9 are buffered, the contract has accepted 0 to 19. */
  lemma ShortCheckpointExample()
    ensures var headers := [Header(0, 19, 7, 1), Header(20, 29, 8, 1)];
            var buffered := Checkpoint(0, 9, 6, 1, 15001, 100);
            var s := Store(map[], map[], map[Tron := buffered]);
            var ack := MsgCheckpointAck(1, 1, 0, 19, 7, Tron);
            && Contiguous(headers, 0) && Sound(s, headers, 0, Tron)
            && Confirmed(headers, ack) && AckPasses(s, ack) && PostAckPasses(s, ack, Yes)
            && !Complete(AfterPostAck(s, ack, Yes), headers, Tron)
  {
    var s := Store(map[], map[], map[Tron := Checkpoint(0, 9, 6, 1, 15001, 100)]);
    var ack := MsgCheckpointAck(1, 1, 0, 19, 7, Tron);
    assert AfterPostAck(s, ack, Yes).checkpoints[(Tron, 1)].endBlock == 9;
  }
}
