/** Span proposals (bor/handler.go, bor/side_handler.go, bor/keeper.go): continuity is checked
    when a proposal arrives; when it is carried out only its ID is. */
module Spans {
  import opened GoInt
  import opened Options
  import opened SideTx

  datatype Span = Span(id: U64, startBlock: U64, endBlock: U64, chainId: nat)
  datatype MsgProposeSpan = MsgProposeSpan(id: U64, startBlock: U64, endBlock: U64, chainId: nat)
  datatype Params = Params(borChainId: nat, spanDuration: U64)

  datatype Error =
    InvalidChainId | SpanNotFound | NotInContinuity | InvalidDuration | NotApproved | OldTx | UnableToFreeze
  datatype Result = Ok | Err(error: Error)
  datatype Store = Store(spans: map<U64, Span>, lastId: Option<U64>, lastEthBlock: nat)

  /** Without a last ID the code looks for span 0. */
  function LastSpan(s: Store): Option<Span> {
    var id := if s.lastId.Some? then s.lastId.value else 0;
    if id in s.spans then Some(s.spans[id]) else None
  }

  /** The next span after `last`; the additions wrap around. */
  predicate Next(last: Span, msg: MsgProposeSpan) {
    msg.id == WrapU64(last.id + 1) && msg.startBlock == WrapU64(last.endBlock + 1) && msg.startBlock <= msg.endBlock
  }

  predicate ProposalPasses(s: Store, params: Params, msg: MsgProposeSpan) {
    && msg.chainId == params.borChainId
    && LastSpan(s).Some? && Next(LastSpan(s).value, msg)
    && params.spanDuration == WrapU64(msg.endBlock - msg.startBlock + 1)
  }

  predicate PostProposalPasses(s: Store, msg: MsgProposeSpan, vote: Vote, producersFound: bool) {
    vote == Yes && msg.id !in s.spans && producersFound
  }

  function AfterPostProposal(s: Store, msg: MsgProposeSpan, vote: Vote, producersFound: bool): Store {
    if PostProposalPasses(s, msg, vote, producersFound) then
      var span := Span(msg.id, msg.startBlock, msg.endBlock, msg.chainId);
      Store(s.spans[msg.id := span], Some(msg.id), s.lastEthBlock + 1)
    else s
  }

  class Keeper {
    var spans: map<U64, Span>
    var lastId: Option<U64>
    var lastEthBlock: nat

    ghost function Now(): Store
      reads this
    {
      Store(spans, lastId, lastEthBlock)
    }

    constructor (spans: map<U64, Span>, lastId: Option<U64>, lastEthBlock: nat)
      ensures Now() == Store(spans, lastId, lastEthBlock)
    {
      this.spans, this.lastId, this.lastEthBlock := spans, lastId, lastEthBlock;
    }

    method GetLastSpan() returns (last: Option<Span>)
      ensures last == LastSpan(Now())
      ensures var id := if lastId.Some? then lastId.value else 0;
              (last.Some? <==> id in spans) && (last.Some? ==> last.value == spans[id])
    {
      var lastSpanId := 0;
      if lastId.Some? {
        lastSpanId := lastId.value;
      }
      last := if lastSpanId in spans then Some(spans[lastSpanId]) else None;
    }

    method HandleMsgProposeSpan(params: Params, msg: MsgProposeSpan) returns (result: Result)
      ensures result == Ok <==> ProposalPasses(Now(), params, msg)
      ensures result == Err(InvalidChainId) <==> msg.chainId != params.borChainId
      ensures result == Err(SpanNotFound) <==> msg.chainId == params.borChainId && LastSpan(Now()).None?
      ensures result == Err(InvalidDuration) ==> LastSpan(Now()).Some? && Next(LastSpan(Now()).value, msg)
      ensures result == Err(NotInContinuity) ==> LastSpan(Now()).Some? && !Next(LastSpan(Now()).value, msg)
    {
      if params.borChainId != msg.chainId {
        return Err(InvalidChainId);
      }
      var lastSpan := GetLastSpan();
      if lastSpan.None? {
        return Err(SpanNotFound);
      }
      if || WrapU64(lastSpan.value.id + 1) != msg.id
         || msg.startBlock != WrapU64(lastSpan.value.endBlock + 1)
         || msg.endBlock < msg.startBlock {
        return Err(NotInContinuity);
      }
      if params.spanDuration != WrapU64(msg.endBlock - msg.startBlock + 1) {
        return Err(InvalidDuration);
      }
      return Ok;
    }

    method AddNewSpan(span: Span)
      modifies this`spans, this`lastId
      ensures spans == old(spans)[span.id := span] && lastId == Some(span.id)
    {
      spans := spans[span.id := span];
      lastId := Some(span.id);
    }

    method FreezeSet(msg: MsgProposeSpan, producersFound: bool) returns (ok: bool)
      modifies this
      ensures ok == producersFound
      ensures Now() == if ok
                       then Store(old(spans)[msg.id := Span(msg.id, msg.startBlock, msg.endBlock, msg.chainId)],
                                  Some(msg.id), old(lastEthBlock) + 1)
                       else old(Now())
    {
      if !producersFound {
        return false;
      }
      lastEthBlock := lastEthBlock + 1;
      AddNewSpan(Span(msg.id, msg.startBlock, msg.endBlock, msg.chainId));
      return true;
    }

    method PostHandleMsgEventSpan(msg: MsgProposeSpan, vote: Vote, producersFound: bool) returns (result: Result)
      modifies this
      ensures result == Ok <==> old(PostProposalPasses(Now(), msg, vote, producersFound))
      ensures result == Ok <==> vote == Yes && msg.id !in old(spans) && producersFound
      ensures result == Ok ==> && spans == old(spans)[msg.id := Span(msg.id, msg.startBlock, msg.endBlock, msg.chainId)]
                               && lastId == Some(msg.id) && lastEthBlock == old(lastEthBlock) + 1
      ensures result != Ok ==> Now() == old(Now())
      ensures Now() == AfterPostProposal(old(Now()), msg, vote, producersFound)
      ensures result == Err(OldTx) <==> vote == Yes && msg.id in old(spans)
      ensures result == Err(UnableToFreeze) <==> vote == Yes && msg.id !in old(spans) && !producersFound
    {
      if vote != Yes {
        return Err(NotApproved);
      }
      if msg.id in spans {
        return Err(OldTx);
      }
      var ok := FreezeSet(msg, producersFound);
      if !ok {
        return Err(UnableToFreeze);
      }
      return Ok;
    }
  }

  // ---------------------------------------------------------------- runs

  datatype Op =
    | Propose(params: Params, proposal: MsgProposeSpan)
    | Vote(voted: MsgProposeSpan, vote: SideTx.Vote, producersFound: bool)

  /** The store and the proposals accepted but not yet voted on. */
  datatype Protocol = Protocol(store: Store, inFlight: multiset<MsgProposeSpan>)

  function Apply(p: Protocol, op: Op): Protocol {
    match op
    case Propose(params, msg) =>
      if ProposalPasses(p.store, params, msg) then p.(inFlight := p.inFlight + multiset{msg}) else p
    case Vote(msg, vote, producersFound) =>
      if msg in p.inFlight then
        Protocol(AfterPostProposal(p.store, msg, vote, producersFound), p.inFlight - multiset{msg})
      else p
  }

  function Run(p: Protocol, ops: seq<Op>): Protocol {
    if ops == [] then p else Apply(Run(p, ops[..|ops| - 1]), ops[|ops| - 1])
  }

  predicate Placed(spans: map<U64, Span>, last: U64, k: U64) {
    if k > last then k !in spans
    else
      && k in spans && spans[k].id == k
      && (k > 0 ==> k - 1 in spans && spans[k].startBlock == WrapU64(spans[k - 1].endBlock + 1)
                    && spans[k].startBlock <= spans[k].endBlock)
  }

  /** Spans 0 to the last, each beginning where the one before ends. */
  ghost predicate Contiguous(s: Store) {
    s.lastId.Some? && forall k: U64 :: Placed(s.spans, s.lastId.value, k)
  }

  /** A proposal in flight whose ID is not stored still follows the last span. */
  predicate Current(s: Store, msg: MsgProposeSpan) {
    msg.id in s.spans || (LastSpan(s).Some? && Next(LastSpan(s).value, msg))
  }

  ghost predicate Sound(p: Protocol, baseBlock: int) {
    && Contiguous(p.store)
    && (forall msg :: msg in p.inFlight ==> Current(p.store, msg))
    && p.store.lastEthBlock == baseBlock + p.store.lastId.value
  }

  lemma ExtendKeepsContiguous(s: Store, msg: MsgProposeSpan)
    requires Contiguous(s) && Current(s, msg) && msg.id !in s.spans
    ensures Contiguous(AfterPostProposal(s, msg, Yes, true))
    ensures msg.id == s.lastId.value + 1
  {
    var last := s.lastId.value;
    var t := AfterPostProposal(s, msg, Yes, true);
    assert Placed(s.spans, last, last) && Placed(s.spans, last, 0);
    forall k: U64
      ensures Placed(t.spans, msg.id, k)
    {
      assert Placed(s.spans, last, k);
    }
  }

  lemma StepKeepsSound(p: Protocol, op: Op, baseBlock: int)
    requires Sound(p, baseBlock)
    ensures Sound(Apply(p, op), baseBlock)
  {
    var q := Apply(p, op);
    if op.Vote? && op.voted in p.inFlight && PostProposalPasses(p.store, op.voted, op.vote, op.producersFound) {
      assert Current(p.store, op.voted);
      ExtendKeepsContiguous(p.store, op.voted);
      forall msg | msg in q.inFlight
        ensures Current(q.store, msg)
      {
        assert Current(p.store, msg);
      }
    }
  }

  /** However proposals and votes interleave, the spans stay contiguous, and each has used up
      one block of the main chain for its seed. */
  lemma {:induction false} SpansStayContiguous(p: Protocol, ops: seq<Op>, baseBlock: int)
    requires Sound(p, baseBlock)
    ensures Sound(Run(p, ops), baseBlock)
  {
    if ops != [] {
      SpansStayContiguous(p, ops[..|ops| - 1], baseBlock);
      StepKeepsSound(Run(p, ops[..|ops| - 1]), ops[|ops| - 1], baseBlock);
    }
  }

  /** A chain starts so: span 0 only, and nothing in flight. */
  lemma GenesisIsSound(first: Span, lastEthBlock: nat)
    requires first.id == 0
    ensures Sound(Protocol(Store(map[0 := first], Some(0), lastEthBlock), multiset{}), lastEthBlock)
  {
  }

  /** A proposal that is carried out is the next span, with the duration it was checked for. */
  lemma CarriedOutIsNext(p: Protocol, msg: MsgProposeSpan, baseBlock: int)
    requires Sound(p, baseBlock) && msg in p.inFlight && PostProposalPasses(p.store, msg, Yes, true)
    ensures Next(p.store.spans[p.store.lastId.value], msg)
    ensures forall other :: other in p.inFlight && other.id == msg.id ==> other.startBlock == msg.startBlock
  {
    assert Current(p.store, msg);
    assert Placed(p.store.spans, p.store.lastId.value, p.store.lastId.value);
    forall other | other in p.inFlight && other.id == msg.id
      ensures other.startBlock == msg.startBlock
    {
      assert Current(p.store, other);
    }
  }

  /** In every state a run reaches, a proposal is accepted exactly when it is for the chain, carries the number
      after the last, starts where the last ends, and lasts as long as the parameters say, all modulo 2^64. */
  lemma ProposalPassesIff(p: Protocol, ops: seq<Op>, baseBlock: int, params: Params, msg: MsgProposeSpan)
    requires Sound(p, baseBlock)
    ensures var s := Run(p, ops).store;
            && s.lastId.Some? && s.lastId.value in s.spans
            && (ProposalPasses(s, params, msg) <==>
                 && msg.chainId == params.borChainId
                 && msg.id == (s.lastId.value + 1) % TWO_TO_64
                 && msg.startBlock == (s.spans[s.lastId.value].endBlock + 1) % TWO_TO_64
                 && msg.startBlock <= msg.endBlock
                 && (msg.endBlock - msg.startBlock + 1) % TWO_TO_64 == params.spanDuration)
  {
    hide Run;
    SpansStayContiguous(p, ops, baseBlock);
    var s := Run(p, ops).store;
    var last := s.lastId.value;
    assert Placed(s.spans, last, last);
    UnsignedIsMod(last as int + 1);
    UnsignedIsMod(s.spans[last].endBlock as int + 1);
    UnsignedIsMod(msg.endBlock - msg.startBlock + 1);
  }

  // ---------------------------------------------------------------- where spans come from

  /** A proposal with the chain and, modulo 2^64, the duration of the parameters it was checked against. */
  predicate ProposedBy(op: Op, msg: MsgProposeSpan) {
    && op.Propose? && op.proposal == msg && msg.chainId == op.params.borChainId
    && msg.startBlock <= msg.endBlock && (msg.endBlock - msg.startBlock + 1) % TWO_TO_64 == op.params.spanDuration
  }

  ghost predicate WasProposed(ops: seq<Op>, msg: MsgProposeSpan) {
    exists i :: 0 <= i < |ops| && ProposedBy(ops[i], msg)
  }

  predicate ApprovedBy(op: Op, msg: MsgProposeSpan) {
    op.Vote? && op.voted == msg && op.vote == Yes && op.producersFound
  }

  ghost predicate WasApproved(ops: seq<Op>, msg: MsgProposeSpan) {
    exists i :: 0 <= i < |ops| && ApprovedBy(ops[i], msg)
  }

  /** Span k was there at the start, or it was proposed and approved. */
  ghost predicate OriginAt(start: Store, s: Store, ops: seq<Op>, k: U64) {
    k in s.spans && !(k in start.spans && start.spans[k] == s.spans[k]) ==>
      var span := s.spans[k];
      var msg := MsgProposeSpan(k, span.startBlock, span.endBlock, span.chainId);
      span.id == k && WasProposed(ops, msg) && WasApproved(ops, msg)
  }

  ghost predicate Origins(start: Store, p: Protocol, ops: seq<Op>) {
    && (forall msg :: msg in p.inFlight ==> WasProposed(ops, msg))
    && (forall k: U64 :: OriginAt(start, p.store, ops, k))
  }

  lemma OriginsStay(ops: seq<Op>, op: Op, msg: MsgProposeSpan)
    ensures WasProposed(ops, msg) || ProposedBy(op, msg) ==> WasProposed(ops + [op], msg)
    ensures WasApproved(ops, msg) || ApprovedBy(op, msg) ==> WasApproved(ops + [op], msg)
  {
    assert (ops + [op])[|ops|] == op;
    if WasProposed(ops, msg) {
      var i :| 0 <= i < |ops| && ProposedBy(ops[i], msg);
      assert (ops + [op])[i] == ops[i];
    }
    if WasApproved(ops, msg) {
      var i :| 0 <= i < |ops| && ApprovedBy(ops[i], msg);
      assert (ops + [op])[i] == ops[i];
    }
  }

  lemma PassedIsProposed(s: Store, params: Params, msg: MsgProposeSpan)
    requires ProposalPasses(s, params, msg)
    ensures ProposedBy(Propose(params, msg), msg)
  {
    UnsignedIsMod(msg.endBlock - msg.startBlock + 1);
  }

  lemma Approved(op: Op)
    requires op.Vote? && op.vote == Yes && op.producersFound
    ensures ApprovedBy(op, op.voted)
  {
  }

  lemma OriginsStep(start: Store, p: Protocol, ops: seq<Op>, op: Op)
    requires Origins(start, p, ops)
    ensures Origins(start, Apply(p, op), ops + [op])
  {
    hide WasProposed, WasApproved, ProposedBy, ApprovedBy;
    var q := Apply(p, op);
    forall msg | msg in q.inFlight
      ensures WasProposed(ops + [op], msg)
    {
      OriginsStay(ops, op, msg);
      if msg !in p.inFlight {
        PassedIsProposed(p.store, op.params, msg);
      }
    }
    forall k: U64
      ensures OriginAt(start, q.store, ops + [op], k)
    {
      assert OriginAt(start, p.store, ops, k);
      if k in q.store.spans {
        var span := q.store.spans[k];
        OriginsStay(ops, op, MsgProposeSpan(k, span.startBlock, span.endBlock, span.chainId));
        if op.Vote? && op.voted in p.inFlight && PostProposalPasses(p.store, op.voted, op.vote, op.producersFound)
           && k == op.voted.id {
          Approved(op);
        }
      }
    }
  }

  lemma NoOrigins(start: Store)
    ensures Origins(start, Protocol(start, multiset{}), [])
  {
  }

  /** Over every run, each stored span was there at the start or is exactly one that was proposed, with the
      chain and the duration then required, and that a vote has approved. */
  lemma {:induction false} SpansOriginate(start: Store, ops: seq<Op>)
    ensures var p := Run(Protocol(start, multiset{}), ops);
            forall k: U64 :: OriginAt(start, p.store, ops, k)
    ensures Origins(start, Run(Protocol(start, multiset{}), ops), ops)
  {
    hide OriginAt;
    if ops == [] {
      NoOrigins(start);
    } else {
      var n := |ops| - 1;
      SpansOriginate(start, ops[..n]);
      OriginsStep(start, Run(Protocol(start, multiset{}), ops[..n]), ops[..n], ops[n]);
      assert ops[..n] + [ops[n]] == ops;
    }
  }
}
