/** Governance proposals (gov/proposal.go, gov/deposit.go, gov/endblocker.go, gov/keeper.go): deposits
    held by the module account, and the two queues that end deposit and voting periods. */
module Gov {
  import opened Bank
  import opened GoInt
  import opened MapSums

  /** The module account of governance. */
  const GOV: Address := 0

  datatype Status = DepositPeriod | VotingPeriod | Passed | Rejected | Failed

  datatype Proposal = Proposal(status: Status, depositEndTime: int, votingEndTime: int, totalDeposit: Coins)

  /** A queue entry: the time at which a period ends, and the proposal. */
  type Entry = (int, U64)

  /** A deposit belongs to a proposal and a validator. */
  type Key = (U64, nat)

  type Proposals = map<U64, Proposal>
  type Deposits = map<Key, Coins>

  /** What the tally and the proposal's handler decide. */
  datatype Outcome = Passes | FailsOnExecution | DoesNotPass

  // ---------------------------------------------------------------- the invariant

  predicate Open(p: Proposal) {
    p.status == DepositPeriod || p.status == VotingPeriod
  }

  /** The period of a proposal that a queue entry ends. */
  predicate EndsDeposit(proposals: Proposals, e: Entry) {
    e.1 in proposals && proposals[e.1].status == DepositPeriod && proposals[e.1].depositEndTime == e.0
  }

  predicate EndsVoting(proposals: Proposals, e: Entry) {
    e.1 in proposals && proposals[e.1].status == VotingPeriod && proposals[e.1].votingEndTime == e.0
  }

  predicate Queued(proposals: Proposals, inactive: set<Entry>, active: set<Entry>, e: Entry) {
    (e in inactive <==> EndsDeposit(proposals, e)) && (e in active <==> EndsVoting(proposals, e))
  }

  /** A proposal is in the inactive queue at the end of its deposit period while it is in it, in
      the active queue at the end of its voting period while it is in that, else in neither. */
  ghost predicate QueuesAgree(proposals: Proposals, inactive: set<Entry>, active: set<Entry>) {
    forall e: Entry :: Queued(proposals, inactive, active, e)
  }

  function Amounts(deposits: Deposits, d: string): map<Key, nat> {
    map k | k in deposits :: AmountOf(deposits[k], d)
  }

  /** The sum of deposits in one denomination. */
  ghost function Held(deposits: Deposits, d: string): nat {
    MapSum(Amounts(deposits, d))
  }

  /** The module account holds the deposits, denomination by denomination. */
  ghost predicate Balanced(balances: Balances, deposits: Deposits) {
    forall d: string :: Balance(balances, GOV, d) == Held(deposits, d)
  }

  predicate DepositsAreOpen(proposals: Proposals, deposits: Deposits) {
    forall k :: k in deposits ==> k.0 in proposals && Open(proposals[k.0])
  }

  lemma HeldInsert(deposits: Deposits, k: Key, c: Coins, d: string)
    ensures Held(deposits[k := c], d) ==
              Held(deposits, d) - (if k in deposits then AmountOf(deposits[k], d) else 0) + AmountOf(c, d)
  {
    MapSumInsert(Amounts(deposits, d), k, AmountOf(c, d));
    assert Amounts(deposits[k := c], d) == Amounts(deposits, d)[k := AmountOf(c, d)];
  }

  lemma HeldRemove(deposits: Deposits, k: Key, d: string)
    requires k in deposits
    ensures Held(deposits, d) == AmountOf(deposits[k], d) + Held(deposits - {k}, d)
  {
    MapSumRemove(Amounts(deposits, d), k);
    assert Amounts(deposits - {k}, d) == Amounts(deposits, d) - {k};
  }

  lemma DepositKeepsBalanced(before: Balances, now: Balances, deposits: Deposits, from: Address, k: Key, c: Coins)
    requires Balanced(before, deposits) && from != GOV && Moved(before, now, from, GOV, c)
    ensures Balanced(now, deposits[k := Add(if k in deposits then deposits[k] else map[], c)])
  {
    hide Held, Balance;
    var sum := Add(if k in deposits then deposits[k] else map[], c);
    forall d: string
      ensures Balance(now, GOV, d) == Held(deposits[k := sum], d)
    {
      HeldInsert(deposits, k, sum, d);
    }
  }

  /** The module account can pay every deposit back. */
  lemma CoversDeposit(balances: Balances, deposits: Deposits, k: Key)
    requires Balanced(balances, deposits) && k in deposits
    ensures Covers(CoinsAt(balances, GOV), deposits[k])
  {
    forall d | d in deposits[k]
      ensures AmountOf(CoinsAt(balances, GOV), d) >= deposits[k][d]
    {
      HeldRemove(deposits, k, d);
      assert Balance(balances, GOV, d) == Held(deposits, d);
    }
  }

  lemma RefundKeepsBalanced(before: Balances, now: Balances, deposits: Deposits, to: Address, k: Key)
    requires Balanced(before, deposits) && k in deposits && to != GOV && Moved(before, now, GOV, to, deposits[k])
    ensures Balanced(now, deposits - {k})
  {
    forall d: string
      ensures Balance(now, GOV, d) == Held(deposits - {k}, d)
    {
      HeldRemove(deposits, k, d);
    }
  }

  ghost predicate Totals(total: Coins, deposits: Deposits) {
    forall d: string :: AmountOf(total, d) == Held(deposits, d)
  }

  lemma NoTotal(deposits: Deposits)
    requires deposits == map[]
    ensures Totals(map[], deposits)
  {
    forall d: string
      ensures Held(deposits, d) == 0
    {
      assert Amounts(deposits, d) == map[];
    }
  }

  /** The deposits of one proposal. */
  function DepositsOf(deposits: Deposits, id: U64): Deposits {
    map k | k in deposits && k.0 == id :: deposits[k]
  }

  /** An open proposal's total is the sum of the deposits held for it. */
  ghost predicate TotalHeld(proposals: Proposals, deposits: Deposits, id: U64) {
    id in proposals && Open(proposals[id]) ==> Totals(proposals[id].totalDeposit, DepositsOf(deposits, id))
  }

  ghost predicate TotalsHeld(proposals: Proposals, deposits: Deposits) {
    forall id: U64 :: TotalHeld(proposals, deposits, id)
  }

  lemma NewTotalHeld(before: Proposals, deposits: Deposits, id: U64, p: Proposal)
    requires TotalsHeld(before, deposits) && DepositsAreOpen(before, deposits)
    requires id !in before && p.totalDeposit == map[]
    ensures TotalsHeld(before[id := p], deposits)
  {
    hide Held, Totals;
    var now := before[id := p];
    assert DepositsOf(deposits, id) == map[];
    NoTotal(DepositsOf(deposits, id));
    forall j: U64
      ensures TotalHeld(now, deposits, j)
    {
      assert TotalHeld(before, deposits, j);
    }
  }

  lemma TotalRaised(total: Coins, deposits: Deposits, k: Key, c: Coins)
    requires Totals(total, deposits)
    ensures Totals(Add(total, c), deposits[k := Add(if k in deposits then deposits[k] else map[], c)])
  {
    hide Held;
    var sum := Add(if k in deposits then deposits[k] else map[], c);
    forall d: string
      ensures AmountOf(Add(total, c), d) == Held(deposits[k := sum], d)
    {
      HeldInsert(deposits, k, sum, d);
    }
  }

  lemma DepositKeepsTotals(before: Proposals, deposits: Deposits, k: Key, c: Coins, p: Proposal)
    requires TotalsHeld(before, deposits) && k.0 in before && Open(before[k.0])
    requires p.totalDeposit == Add(before[k.0].totalDeposit, c)
    ensures TotalsHeld(before[k.0 := p], deposits[k := Add(if k in deposits then deposits[k] else map[], c)])
  {
    hide Held, Totals, Add;
    var now, after := deposits[k := Add(if k in deposits then deposits[k] else map[], c)], before[k.0 := p];
    forall j: U64
      ensures TotalHeld(after, now, j)
    {
      assert TotalHeld(before, deposits, j);
      if j == k.0 {
        TotalRaised(before[j].totalDeposit, DepositsOf(deposits, j), k, c);
        assert DepositsOf(now, j) == DepositsOf(deposits, j)[k := now[k]];
      } else {
        assert DepositsOf(now, j) == DepositsOf(deposits, j);
      }
    }
  }

  /** Without a proposal and its deposits the totals of the others are still right. */
  lemma OthersKeepTotals(before: Proposals, deposits: Deposits, now: Proposals, left: Deposits, id: U64)
    requires TotalsHeld(before, deposits)
    requires forall j :: j in now && j != id ==> j in before && now[j] == before[j]
    requires id in now ==> !Open(now[id])
    requires left.Keys <= deposits.Keys
    requires forall k :: k in deposits && k.0 != id ==> k in left && left[k] == deposits[k]
    ensures TotalsHeld(now, left)
  {
    hide Totals;
    forall j: U64
      ensures TotalHeld(now, left, j)
    {
      assert TotalHeld(before, deposits, j);
      if j != id {
        assert DepositsOf(left, j) == DepositsOf(deposits, j);
      }
    }
  }

  // ---------------------------------------------------------------- refunds

  /** The deposits among `gone` that go back to address a. */
  function DueTo(deposits: Deposits, gone: set<Key>, signers: map<nat, Address>, a: Address): Deposits {
    map k | k in deposits && k in gone && k.1 in signers && signers[k.1] == a :: deposits[k]
  }

  /** Everybody has got back the deposits of `gone` that are theirs, and nothing else. */
  ghost predicate Refunded(before: Balances, now: Balances, deposits: Deposits, gone: set<Key>,
      signers: map<nat, Address>) {
    forall a: Address, d: string :: a != GOV ==>
      Balance(now, a, d) == Balance(before, a, d) + Held(DueTo(deposits, gone, signers, a), d)
  }

  lemma NothingRefunded(balances: Balances, deposits: Deposits, signers: map<nat, Address>)
    ensures Refunded(balances, balances, deposits, {}, signers)
  {
    forall a: Address, d: string
      ensures Held(DueTo(deposits, {}, signers, a), d) == 0
    {
      assert Amounts(DueTo(deposits, {}, signers, a), d) == map[];
    }
  }

  lemma DueGrows(deposits: Deposits, gone: set<Key>, signers: map<nat, Address>, k: Key, a: Address)
    requires k in deposits && k !in gone && k.1 in signers
    ensures DueTo(deposits, gone + {k}, signers, a)
         == if signers[k.1] == a then DueTo(deposits, gone, signers, a)[k := deposits[k]]
             else DueTo(deposits, gone, signers, a)
    ensures k !in DueTo(deposits, gone, signers, a)
  {
  }

  lemma OneMoreRefund(start: Balances, before: Balances, now: Balances, deposits: Deposits, gone: set<Key>,
      signers: map<nat, Address>, k: Key)
    requires Refunded(start, before, deposits, gone, signers)
    requires k in deposits && k !in gone && k.1 in signers && Moved(before, now, GOV, signers[k.1], deposits[k])
    ensures Refunded(start, now, deposits, gone + {k}, signers)
  {
    hide DueTo, Held, Balance;
    forall a: Address, d: string | a != GOV
      ensures Balance(now, a, d) == Balance(start, a, d) + Held(DueTo(deposits, gone + {k}, signers, a), d)
    {
      DueGrows(deposits, gone, signers, k, a);
      HeldInsert(DueTo(deposits, gone, signers, a), k, deposits[k], d);
    }
  }

  function KeysOf(deposits: Deposits, id: U64): set<Key> {
    set k | k in deposits && k.0 == id
  }

  // ---------------------------------------------------------------- the operations

  /** A proposal after a deposit: with enough deposited the voting period begins. */
  function Deposited(p: Proposal, amt: Coins, now: int, votingPeriod: int, minDeposit: Coins): Proposal {
    var total := Add(p.totalDeposit, amt);
    if p.status == DepositPeriod && Covers(total, minDeposit)
    then p.(totalDeposit := total, status := VotingPeriod, votingEndTime := now + votingPeriod)
    else p.(totalDeposit := total)
  }

  /** The deposit has been added to the total; a proposal in its deposit period has gone on to voting exactly
      when that makes the total at least the minimum in every denomination, and the vote ends a voting period
      from now; nothing else has changed. */
  ghost predicate Raises(p: Proposal, amt: Coins, r: Proposal, now: int, votingPeriod: int, minDeposit: Coins) {
    && (forall d: string :: AmountOf(r.totalDeposit, d) == AmountOf(p.totalDeposit, d) + AmountOf(amt, d))
    && r.depositEndTime == p.depositEndTime
    && if p.status == DepositPeriod
          && forall d: string :: AmountOf(p.totalDeposit, d) + AmountOf(amt, d) >= AmountOf(minDeposit, d)
       then r.status == VotingPeriod && r.votingEndTime == now + votingPeriod
       else r.status == p.status && r.votingEndTime == p.votingEndTime
  }

  lemma DepositRaises(p: Proposal, amt: Coins, now: int, votingPeriod: int, minDeposit: Coins)
    ensures Raises(p, amt, Deposited(p, amt, now, votingPeriod, minDeposit), now, votingPeriod, minDeposit)
  {
    hide Add;
    var total := Add(p.totalDeposit, amt);
    assert Covers(total, minDeposit) <==> forall d: string :: AmountOf(total, d) >= AmountOf(minDeposit, d);
  }

  function StatusAfter(outcome: Outcome): Status {
    match outcome
    case Passes => Passed
    case FailsOnExecution => Failed
    case DoesNotPass => Rejected
  }

  predicate DepositExpired(p: Proposal, now: int) {
    p.status == DepositPeriod && p.depositEndTime <= now
  }

  predicate VotingExpired(p: Proposal, now: int) {
    p.status == VotingPeriod && p.votingEndTime <= now
  }

  function Unfunded(proposals: Proposals, now: int): set<U64> {
    set id | id in proposals && DepositExpired(proposals[id], now)
  }

  function Voted(proposals: Proposals, now: int): set<U64> {
    set id | id in proposals && VotingExpired(proposals[id], now)
  }

  /** The proposals with the outcomes of those in `ids`. */
  function WithOutcomes(proposals: Proposals, ids: set<U64>, outcomes: U64 -> Outcome): Proposals {
    map id | id in proposals :: if id in ids then proposals[id].(status := StatusAfter(outcomes(id))) else proposals[id]
  }

  /** The proposals after the end of a block: those whose deposit period has run out are
      dropped, those whose voting period has run out have an outcome. */
  function Ended(proposals: Proposals, now: int, outcomes: U64 -> Outcome): Proposals {
    WithOutcomes(proposals - Unfunded(proposals, now), Voted(proposals, now), outcomes)
  }

  function KeysIn(deposits: Deposits, ids: set<U64>): set<Key> {
    set k | k in deposits && k.0 in ids
  }

  /** What the end of a block makes of proposal `id`. */
  ghost predicate EndsAs(was: Proposals, ended: Proposals, now: int, outcomes: U64 -> Outcome, id: U64) {
    && (id in ended <==> id in was && !(was[id].status == DepositPeriod && was[id].depositEndTime <= now))
    && (id in ended ==>
         ended[id] == if was[id].status == VotingPeriod && was[id].votingEndTime <= now
                      then was[id].(status := match outcomes(id)
                                              case Passes => Passed
                                              case FailsOnExecution => Failed
                                              case DoesNotPass => Rejected)
                      else was[id])
  }

  /** A deposit stays exactly when its proposal's present period goes on. */
  predicate DepositStays(proposals: Proposals, was: Deposits, left: Deposits, now: int, k: Key) {
    && (k in left <==>
         && k in was
         && (k.0 in proposals && proposals[k.0].status == DepositPeriod ==> now < proposals[k.0].depositEndTime)
         && (k.0 in proposals && proposals[k.0].status == VotingPeriod ==> now < proposals[k.0].votingEndTime))
    && (k in left ==> left[k] == was[k])
  }

  lemma EndsInFull(was: Proposals, all: Deposits, now: int, outcomes: U64 -> Outcome)
    ensures forall id: U64 :: EndsAs(was, Ended(was, now, outcomes), now, outcomes, id)
    ensures var left := all - KeysIn(all, Unfunded(was, now) + Voted(was, now));
            forall k :: DepositStays(was, all, left, now, k)
  {
  }

  lemma NoKeys(all: Deposits)
    ensures KeysIn(all, {}) == {} && all - {} == all
  {
  }

  lemma NoneMissed(was: Proposals, ids: set<U64>, now: int)
    requires ids <= Unfunded(was, now) && Unfunded(was - ids, now) == {}
    ensures ids == Unfunded(was, now)
  {
    forall id | id in Unfunded(was, now)
      ensures id in ids
    {
      assert id !in Unfunded(was - ids, now);
    }
  }

  lemma NoneUncounted(was: Proposals, ids: set<U64>, outcomes: U64 -> Outcome, now: int)
    requires ids <= Voted(was, now) && Voted(WithOutcomes(was, ids, outcomes), now) == {}
    ensures ids == Voted(was, now)
  {
    forall id | id in Voted(was, now)
      ensures id in ids
    {
      assert id !in Voted(WithOutcomes(was, ids, outcomes), now);
    }
  }

  lemma VotedStays(was: Proposals, now: int)
    ensures Voted(was - Unfunded(was, now), now) == Voted(was, now)
  {
  }

  lemma NewIdHasNoDeposit(proposals: Proposals, deposits: Deposits, id: U64, validator: nat)
    requires DepositsAreOpen(proposals, deposits) && id !in proposals
    ensures (id, validator) !in deposits
  {
  }

  lemma DropKeepsQueues(before: Proposals, inactive: set<Entry>, active: set<Entry>, id: U64)
    requires QueuesAgree(before, inactive, active) && id in before && before[id].status == DepositPeriod
    ensures QueuesAgree(before - {id}, inactive - {(before[id].depositEndTime, id)}, active)
    ensures active - {(before[id].votingEndTime, id)} == active
  {
    var now, waiting := before - {id}, inactive - {(before[id].depositEndTime, id)};
    forall e: Entry
      ensures Queued(now, waiting, active, e)
    {
      assert Queued(before, inactive, active, e);
    }
    assert Queued(before, inactive, active, (before[id].votingEndTime, id));
  }

  lemma FinishKeepsQueues(before: Proposals, inactive: set<Entry>, active: set<Entry>, id: U64, p: Proposal)
    requires QueuesAgree(before, inactive, active) && id in before && before[id].status == VotingPeriod && !Open(p)
    ensures QueuesAgree(before[id := p], inactive, active - {(before[id].votingEndTime, id)})
  {
    var now, voting := before[id := p], active - {(before[id].votingEndTime, id)};
    forall e: Entry
      ensures Queued(now, inactive, voting, e)
    {
      assert Queued(before, inactive, active, e);
    }
  }

  /** Without the deposits of a proposal the others are still open, whatever becomes of it. */
  lemma OthersStayOpen(before: Proposals, deposits: Deposits, now: Proposals, left: Deposits, id: U64)
    requires DepositsAreOpen(before, deposits) && left.Keys <= deposits.Keys && KeysOf(left, id) == {}
    requires forall j :: j in before && j != id ==> j in now && now[j] == before[j]
    ensures DepositsAreOpen(now, left)
  {
    forall k | k in left
      ensures k.0 in now && Open(now[k.0])
    {
      assert k !in KeysOf(left, id);
    }
  }

  lemma AfterRefund(all: Deposits, gone: set<Key>, id: U64, ids: set<U64>)
    requires gone == KeysIn(all, ids)
    ensures gone + KeysOf(all, id) == KeysIn(all, ids + {id})
    ensures KeysOf(all - (gone + KeysOf(all, id)), id) == {}
  {
  }

  /** When no entry up to `now` is left in a queue, no proposal has outlived its period. */
  lemma NoneUnfunded(proposals: Proposals, inactive: set<Entry>, active: set<Entry>, now: int)
    requires QueuesAgree(proposals, inactive, active) && forall e :: e in inactive ==> e.0 > now
    ensures Unfunded(proposals, now) == {}
  {
    forall id | id in proposals
      ensures !DepositExpired(proposals[id], now)
    {
      assert Queued(proposals, inactive, active, (proposals[id].depositEndTime, id));
    }
  }

  lemma NoneVoted(proposals: Proposals, inactive: set<Entry>, active: set<Entry>, now: int)
    requires QueuesAgree(proposals, inactive, active) && forall e :: e in active ==> e.0 > now
    ensures Voted(proposals, now) == {}
  {
    forall id | id in proposals
      ensures !VotingExpired(proposals[id], now)
    {
      assert Queued(proposals, inactive, active, (proposals[id].votingEndTime, id));
    }
  }

  lemma NewProposalQueued(before: Proposals, now: Proposals, inactive: set<Entry>, active: set<Entry>, id: U64,
      end: int)
    requires QueuesAgree(before, inactive, active) && id !in before
    requires now == before[id := Proposal(DepositPeriod, end, 0, map[])]
    ensures QueuesAgree(now, inactive + {(end, id)}, active)
  {
    forall e: Entry
      ensures Queued(now, inactive + {(end, id)}, active, e)
    {
      assert Queued(before, inactive, active, e);
    }
  }

  lemma TotalKeepsQueues(before: Proposals, inactive: set<Entry>, active: set<Entry>, id: U64, p: Proposal)
    requires QueuesAgree(before, inactive, active) && id in before
    requires p == before[id].(totalDeposit := p.totalDeposit)
    ensures QueuesAgree(before[id := p], inactive, active)
  {
    var now := before[id := p];
    forall e: Entry
      ensures Queued(now, inactive, active, e)
    {
      assert Queued(before, inactive, active, e);
    }
  }

  lemma ActivationKeepsQueues(before: Proposals, inactive: set<Entry>, active: set<Entry>, id: U64, p: Proposal)
    requires QueuesAgree(before, inactive, active) && id in before
    requires before[id].status == DepositPeriod && p.status == VotingPeriod
    requires p.depositEndTime == before[id].depositEndTime
    ensures QueuesAgree(before[id := p], inactive - {(p.depositEndTime, id)}, active + {(p.votingEndTime, id)})
  {
    var now, waiting, voting := before[id := p], inactive - {(p.depositEndTime, id)}, active + {(p.votingEndTime, id)};
    forall e: Entry
      ensures Queued(now, waiting, voting, e)
    {
      assert Queued(before, inactive, active, e);
    }
  }

  lemma DepositStaysOpen(proposals: Proposals, deposits: Deposits, k: Key, c: Coins)
    requires DepositsAreOpen(proposals, deposits) && k.0 in proposals && Open(proposals[k.0])
    ensures DepositsAreOpen(proposals, deposits[k := c])
  {
  }

  lemma UpdateStaysOpen(proposals: Proposals, deposits: Deposits, id: U64, p: Proposal)
    requires DepositsAreOpen(proposals, deposits) && Open(p)
    ensures DepositsAreOpen(proposals[id := p], deposits)
  {
  }

  lemma AllGone(all: Deposits, gone: set<Key>, done: set<Key>, id: U64)
    requires gone <= done <= gone + KeysOf(all, id) && KeysOf(all - done, id) == {}
    ensures done == gone + KeysOf(all, id)
  {
    forall k | k in KeysOf(all, id)
      ensures k in done
    {
      assert k !in KeysOf(all - done, id);
    }
  }

  class Keeper {
    const bank: Bank.Keeper
    var proposals: Proposals
    var inactive: set<Entry>
    var active: set<Entry>
    var deposits: Deposits
    var nextId: U64

    ghost predicate Valid()
      reads this, bank
    {
      && QueuesAgree(proposals, inactive, active)
      && Balanced(bank.balances, deposits)
      && DepositsAreOpen(proposals, deposits) && TotalsHeld(proposals, deposits)
      && forall id :: id in proposals ==> id < nextId
    }

    /** Every deposit's validator has a signer, which is not the module account. */
    ghost predicate Payable(signers: map<nat, Address>)
      reads this
    {
      forall k :: k in deposits ==> k.1 in signers && signers[k.1] != GOV
    }

    constructor (bank: Bank.Keeper, startingId: U64)
      requires forall d :: Balance(bank.balances, GOV, d) == 0
      ensures Valid() && this.bank == bank && proposals == map[] && deposits == map[] && nextId == startingId
    {
      this.bank, proposals, inactive, active, deposits, nextId := bank, map[], {}, {}, map[], startingId;
      new;
      forall d: string
        ensures Held(deposits, d) == 0
      {
        assert Amounts(deposits, d) == map[];
      }
    }

    /** Refused when the content has no handler or its handler fails on it. */
    method SubmitProposal(now: int, depositPeriod: int, contentIsValid: bool) returns (id: U64, ok: bool)
      requires Valid() && nextId < MAX_UINT64
      modifies this
      ensures Valid() && ok == contentIsValid && id == old(nextId)
      ensures deposits == old(deposits)
      ensures ok ==> && nextId == id + 1
                     && proposals == old(proposals)[id := Proposal(DepositPeriod, now + depositPeriod, 0, map[])]
      ensures !ok ==> unchanged(this)
    {
      id := nextId;
      if !contentIsValid {
        return id, false;
      }
      ghost var was, waiting := proposals, inactive;
      proposals := proposals[id := Proposal(DepositPeriod, now + depositPeriod, 0, map[])];
      inactive := inactive + {(now + depositPeriod, id)};
      nextId := nextId + 1;
      NewProposalQueued(was, proposals, waiting, active, id, now + depositPeriod);
      NewTotalHeld(was, deposits, id, proposals[id]);
      return id, true;
    }

    method ActivateVotingPeriod(id: U64, proposal: Proposal, now: int, votingPeriod: int)
      modifies this`proposals, this`inactive, this`active
      ensures proposals == old(proposals)[id := proposal.(status := VotingPeriod, votingEndTime := now + votingPeriod)]
      ensures inactive == old(inactive) - {(proposal.depositEndTime, id)}
      ensures active == old(active) + {(now + votingPeriod, id)}
    {
      proposals := proposals[id := proposal.(votingEndTime := now + votingPeriod, status := VotingPeriod)];
      inactive := inactive - {(proposal.depositEndTime, id)};
      active := active + {(now + votingPeriod, id)};
    }

    /** The total of an open proposal, and the start of its voting period. */
    method UpdateProposal(id: U64, amt: Coins, now: int, votingPeriod: int, minDeposit: Coins)
      requires QueuesAgree(proposals, inactive, active) && DepositsAreOpen(proposals, deposits)
      requires id in proposals && Open(proposals[id])
      modifies this`proposals, this`inactive, this`active
      ensures proposals == old(proposals)[id := Deposited(old(proposals)[id], amt, now, votingPeriod, minDeposit)]
      ensures QueuesAgree(proposals, inactive, active) && DepositsAreOpen(proposals, deposits)
      ensures Open(proposals[id])
    {
      hide Queued, Covers, DepositsAreOpen, Add;
      var proposal := proposals[id];
      ghost var before, waiting, voting := proposals, inactive, active;
      proposal := proposal.(totalDeposit := Add(proposal.totalDeposit, amt));
      TotalKeepsQueues(before, waiting, voting, id, proposal);
      proposals := proposals[id := proposal];
      if proposal.status == DepositPeriod && Covers(proposal.totalDeposit, minDeposit) {
        ActivationKeepsQueues(proposals, waiting, voting, id,
            proposal.(status := VotingPeriod, votingEndTime := now + votingPeriod));
        ActivateVotingPeriod(id, proposal, now, votingPeriod);
      }
      UpdateStaysOpen(before, deposits, id, Deposited(before[id], amt, now, votingPeriod, minDeposit));
      assert proposals == before[id := Deposited(before[id], amt, now, votingPeriod, minDeposit)];
    }

    /** The part of a deposit behind the transfer. */
    method RecordDeposit(id: U64, amt: Coins, validator: nat, now: int, votingPeriod: int, minDeposit: Coins)
      requires QueuesAgree(proposals, inactive, active)
      requires DepositsAreOpen(proposals, deposits) && TotalsHeld(proposals, deposits)
      requires id in proposals && Open(proposals[id])
      modifies this`proposals, this`inactive, this`active, this`deposits
      ensures QueuesAgree(proposals, inactive, active)
      ensures DepositsAreOpen(proposals, deposits) && TotalsHeld(proposals, deposits)
      ensures proposals == old(proposals)[id := Deposited(old(proposals)[id], amt, now, votingPeriod, minDeposit)]
      ensures Raises(old(proposals)[id], amt, proposals[id], now, votingPeriod, minDeposit)
      ensures var k := (id, validator);
              deposits == old(deposits)[k := Add(if k in old(deposits) then old(deposits)[k] else map[], amt)]
    {
      hide QueuesAgree, DepositsAreOpen, TotalsHeld, Raises, Covers;
      ghost var before := proposals;
      UpdateProposal(id, amt, now, votingPeriod, minDeposit);
      DepositRaises(before[id], amt, now, votingPeriod, minDeposit);
      var k := (id, validator);
      var deposit: Coins := if k in deposits then deposits[k] else map[];
      DepositStaysOpen(proposals, deposits, k, Add(deposit, amt));
      DepositKeepsTotals(before, deposits, k, amt, proposals[id]);
      deposits := deposits[k := Add(deposit, amt)];
    }

    method AddDeposit(id: U64, depositor: Address, raw: RawCoins, validator: nat, now: int, votingPeriod: int,
        minDeposit: Coins)
      returns (ok: bool)
      requires Valid() && depositor != GOV
      modifies this`proposals, this`inactive, this`active, this`deposits, bank
      ensures Valid()
      ensures ok <==> && id in old(proposals) && Open(old(proposals)[id]) && ValidCoins(raw)
                      && Covers(old(CoinsAt(bank.balances, depositor)), raw)
      ensures !ok ==> unchanged(this) && bank.balances == old(bank.balances)
      ensures ok ==> var after := Deposited(old(proposals)[id], raw, now, votingPeriod, minDeposit);
                     proposals == old(proposals)[id := after]
      ensures ok ==> Raises(old(proposals)[id], raw, proposals[id], now, votingPeriod, minDeposit)
      ensures ok ==> var k := (id, validator);
                     deposits == old(deposits)[k := Add(if k in old(deposits) then old(deposits)[k] else map[], raw)]
      ensures ok ==> Moved(old(bank.balances), bank.balances, depositor, GOV, raw)
    {
      hide QueuesAgree, Balanced, TotalsHeld, DepositsAreOpen, Raises, Covers, Moved, Deposited, Balance;
      if id !in proposals {
        return false;
      }
      var proposal := proposals[id];
      if proposal.status != DepositPeriod && proposal.status != VotingPeriod {
        return false;
      }
      ghost var balances, held := bank.balances, deposits;
      ok := bank.SendCoins(depositor, GOV, raw);
      if !ok {
        return;
      }
      DepositKeepsBalanced(balances, bank.balances, held, depositor, (id, validator), raw);
      RecordDeposit(id, raw, validator, now, votingPeriod, minDeposit);
    }

    /** A proposal with its first deposit; without the deposit there is no proposal. */
    method HandleMsgSubmitProposal(proposer: Address, proposerIsValidator: bool, raw: RawCoins, validator: nat,
                                   contentIsValid: bool, now: int, depositPeriod: int, votingPeriod: int,
                                   minDeposit: Coins)
      returns (ok: bool)
      requires Valid() && nextId < MAX_UINT64 && proposer != GOV
      modifies this, bank
      ensures Valid()
      ensures ok <==> && proposerIsValidator && contentIsValid && ValidCoins(raw)
                      && Covers(old(CoinsAt(bank.balances, proposer)), raw)
      ensures !ok ==> && proposals == old(proposals) && deposits == old(deposits) && nextId == old(nextId)
                      && inactive == old(inactive) && active == old(active) && bank.balances == old(bank.balances)
      ensures ok ==> var submitted := Proposal(DepositPeriod, now + depositPeriod, 0, map[]);
                     var after := Deposited(submitted, raw, now, votingPeriod, minDeposit);
                     && proposals == old(proposals)[old(nextId) := after]
                     && Raises(submitted, raw, proposals[old(nextId)], now, votingPeriod, minDeposit)
                     && deposits == old(deposits)[(old(nextId), validator) := raw]
                     && Moved(old(bank.balances), bank.balances, proposer, GOV, raw)
    {
      hide QueuesAgree, Balanced, DepositsAreOpen, TotalsHeld, Covers, Moved, Raises;
      if !proposerIsValidator {
        return false;
      }
      var oldProposals, oldInactive, oldActive, oldNext := proposals, inactive, active, nextId;
      var id;
      id, ok := SubmitProposal(now, depositPeriod, contentIsValid);
      if !ok {
        return;
      }
      NewIdHasNoDeposit(oldProposals, deposits, id, validator);
      ok := AddDeposit(id, proposer, raw, validator, now, votingPeriod, minDeposit);
      if !ok {
        proposals, inactive, active, nextId := oldProposals, oldInactive, oldActive, oldNext;
      } else {
        assert Add(map[], raw) == raw;
      }
    }

    method HandleMsgDeposit(id: U64, depositor: Address, depositorIsValidator: bool, raw: RawCoins, validator: nat,
                            now: int, votingPeriod: int, minDeposit: Coins) returns (ok: bool)
      requires Valid() && depositor != GOV
      modifies this`proposals, this`inactive, this`active, this`deposits, bank
      ensures Valid()
      ensures ok <==> && depositorIsValidator && id in old(proposals) && Open(old(proposals)[id]) && ValidCoins(raw)
                      && Covers(old(CoinsAt(bank.balances, depositor)), raw)
      ensures !ok ==> unchanged(this) && bank.balances == old(bank.balances)
      ensures ok ==> var after := Deposited(old(proposals)[id], raw, now, votingPeriod, minDeposit);
                     proposals == old(proposals)[id := after]
      ensures ok ==> Raises(old(proposals)[id], raw, proposals[id], now, votingPeriod, minDeposit)
      ensures ok ==> var k := (id, validator);
                     deposits == old(deposits)[k := Add(if k in old(deposits) then old(deposits)[k] else map[], raw)]
      ensures ok ==> Moved(old(bank.balances), bank.balances, depositor, GOV, raw)
    {
      hide Raises;
      if !depositorIsValidator {
        return false;
      }
      ok := AddDeposit(id, depositor, raw, validator, now, votingPeriod, minDeposit);
    }

    /** Pays back and deletes the deposits of a proposal. `start`, `all` and `gone` are the
        balances and deposits some refunds ago, and the deposits refunded since. */
    method RefundDeposits(id: U64, signers: map<nat, Address>, ghost start: Balances, ghost all: Deposits,
        ghost gone: set<Key>)
      requires Balanced(bank.balances, deposits) && Payable(signers)
      requires deposits == all - gone && Refunded(start, bank.balances, all, gone, signers)
      modifies this`deposits, bank
      ensures Balanced(bank.balances, deposits) && Payable(signers)
      ensures deposits == all - (gone + KeysOf(all, id))
      ensures Refunded(start, bank.balances, all, gone + KeysOf(all, id), signers)
    {
      hide Held, Balanced, Refunded, Moved;
      var keys := KeysOf(deposits, id);
      ghost var done := gone;
      while keys != {}
        invariant Balanced(bank.balances, deposits) && Payable(signers)
        invariant keys == KeysOf(deposits, id) && deposits == all - done
        invariant gone <= done <= gone + KeysOf(all, id)
        invariant Refunded(start, bank.balances, all, done, signers)
        decreases keys
      {
        var k :| k in keys;
        if k.1 !in signers {
          assert false;
        }
        CoversDeposit(bank.balances, deposits, k);
        ghost var before := bank.balances;
        var ok := bank.SendCoins(GOV, signers[k.1], deposits[k]);
        if !ok {
          assert false;
        }
        RefundKeepsBalanced(before, bank.balances, deposits, signers[k.1], k);
        OneMoreRefund(start, before, bank.balances, all, done, signers, k);
        deposits := deposits - {k};
        keys, done := keys - {k}, done + {k};
      }
      AllGone(all, gone, done, id);
    }

    /** Panics for a proposal that is not there. */
    method DeleteProposal(id: U64)
      requires id in proposals
      modifies this`proposals, this`inactive, this`active
      ensures proposals == old(proposals) - {id}
      ensures inactive == old(inactive) - {(old(proposals)[id].depositEndTime, id)}
      ensures active == old(active) - {(old(proposals)[id].votingEndTime, id)}
    {
      var proposal := proposals[id];
      inactive := inactive - {(proposal.depositEndTime, id)};
      active := active - {(proposal.votingEndTime, id)};
      proposals := proposals - {id};
    }

    /** One entry of the inactive queue; a proposal that is not found would panic. */
    method DropUnfunded(e: Entry, signers: map<nat, Address>, ghost start: Balances, ghost all: Deposits,
        ghost ids: set<U64>)
      requires Valid() && Payable(signers) && e in inactive
      requires deposits == all - KeysIn(all, ids) && Refunded(start, bank.balances, all, KeysIn(all, ids), signers)
      modifies this`proposals, this`inactive, this`active, this`deposits, bank
      ensures Valid() && Payable(signers) && e.1 in old(proposals) && EndsDeposit(old(proposals), e)
      ensures proposals == old(proposals) - {e.1} && inactive == old(inactive) - {e} && active == old(active)
      ensures deposits == all - KeysIn(all, ids + {e.1})
      ensures Refunded(start, bank.balances, all, KeysIn(all, ids + {e.1}), signers)
    {
      hide Balanced, Refunded, DepositsAreOpen, TotalsHeld, Held;
      var id := e.1;
      assert Queued(proposals, inactive, active, e);
      if id !in proposals {
        assert false;
      }
      ghost var before, waiting, voting, held := proposals, inactive, active, deposits;
      AfterRefund(all, KeysIn(all, ids), id, ids);
      DropKeepsQueues(before, waiting, voting, id);
      RefundDeposits(id, signers, start, all, KeysIn(all, ids));
      DeleteProposal(id);
      OthersStayOpen(before, held, proposals, deposits, id);
      OthersKeepTotals(before, held, proposals, deposits, id);
    }

    /** One entry of the active queue. */
    method FinishVoted(e: Entry, outcome: Outcome, signers: map<nat, Address>, ghost start: Balances,
        ghost all: Deposits, ghost ids: set<U64>)
      requires Valid() && Payable(signers) && e in active
      requires deposits == all - KeysIn(all, ids) && Refunded(start, bank.balances, all, KeysIn(all, ids), signers)
      modifies this`proposals, this`active, this`deposits, bank
      ensures Valid() && Payable(signers) && e.1 in old(proposals) && EndsVoting(old(proposals), e)
      ensures proposals == old(proposals)[e.1 := old(proposals)[e.1].(status := StatusAfter(outcome))]
      ensures inactive == old(inactive) && active == old(active) - {e}
      ensures deposits == all - KeysIn(all, ids + {e.1})
      ensures Refunded(start, bank.balances, all, KeysIn(all, ids + {e.1}), signers)
    {
      hide Balanced, Refunded, DepositsAreOpen, TotalsHeld, Held;
      var id := e.1;
      assert Queued(proposals, inactive, active, e);
      if id !in proposals {
        assert false;
      }
      var proposal := proposals[id];
      ghost var before, waiting, voting, held := proposals, inactive, active, deposits;
      AfterRefund(all, KeysIn(all, ids), id, ids);
      RefundDeposits(id, signers, start, all, KeysIn(all, ids));
      if outcome == Passes {
        proposal := proposal.(status := Passed);
      } else if outcome == FailsOnExecution {
        proposal := proposal.(status := Failed);
      } else {
        proposal := proposal.(status := Rejected);
      }
      FinishKeepsQueues(before, waiting, voting, id, proposal);
      proposals := proposals[id := proposal];
      active := active - {(proposal.votingEndTime, id)};
      OthersStayOpen(before, held, proposals, deposits, id);
      OthersKeepTotals(before, held, proposals, deposits, id);
    }

    method EndDepositPeriods(now: int, signers: map<nat, Address>, ghost start: Balances, ghost all: Deposits)
      requires Valid() && Payable(signers) && deposits == all && bank.balances == start
      modifies this`proposals, this`inactive, this`active, this`deposits, bank
      ensures Valid() && Payable(signers) && active == old(active)
      ensures inactive == set e | e in old(inactive) && e.0 > now
      ensures proposals == old(proposals) - Unfunded(old(proposals), now)
      ensures var ids := Unfunded(old(proposals), now);
              deposits == all - KeysIn(all, ids) && Refunded(start, bank.balances, all, KeysIn(all, ids), signers)
    {
      hide Balanced, Refunded, DepositsAreOpen, TotalsHeld, Held, QueuesAgree;
      var due := set e | e in inactive && e.0 <= now;
      ghost var was, ids: set<U64> := proposals, {};
      NothingRefunded(start, all, signers);
      NoKeys(all);
      while due != {}
        invariant Valid() && Payable(signers) && active == old(active)
        invariant due == (set e | e in inactive && e.0 <= now)
        invariant inactive - due == (set e | e in old(inactive) && e.0 > now)
        invariant ids <= Unfunded(was, now) && proposals == was - ids
        invariant deposits == all - KeysIn(all, ids) && Refunded(start, bank.balances, all, KeysIn(all, ids), signers)
        decreases due
      {
        var e :| e in due;
        DropUnfunded(e, signers, start, all, ids);
        due, ids := due - {e}, ids + {e.1};
      }
      forall e | e in inactive
        ensures e.0 > now
      {
        assert e !in due;
      }
      NoneUnfunded(proposals, inactive, active, now);
      NoneMissed(was, ids, now);
    }

    method EndVotingPeriods(now: int, outcomes: U64 -> Outcome, signers: map<nat, Address>, ghost start: Balances,
        ghost all: Deposits, ghost dropped: set<U64>)
      requires Valid() && Payable(signers)
      requires deposits == all - KeysIn(all, dropped)
      requires Refunded(start, bank.balances, all, KeysIn(all, dropped), signers)
      modifies this`proposals, this`active, this`deposits, bank
      ensures Valid() && Payable(signers) && inactive == old(inactive)
      ensures active == set e | e in old(active) && e.0 > now
      ensures proposals == WithOutcomes(old(proposals), Voted(old(proposals), now), outcomes)
      ensures var ids := dropped + Voted(old(proposals), now);
              deposits == all - KeysIn(all, ids) && Refunded(start, bank.balances, all, KeysIn(all, ids), signers)
    {
      hide Balanced, Refunded, DepositsAreOpen, TotalsHeld, Held, QueuesAgree;
      var due := set e | e in active && e.0 <= now;
      ghost var was, ids: set<U64> := proposals, {};
      assert dropped + {} == dropped;
      while due != {}
        invariant Valid() && Payable(signers) && inactive == old(inactive)
        invariant due == (set e | e in active && e.0 <= now)
        invariant active - due == (set e | e in old(active) && e.0 > now)
        invariant ids <= Voted(was, now) && proposals == WithOutcomes(was, ids, outcomes)
        invariant deposits == all - KeysIn(all, dropped + ids)
        invariant Refunded(start, bank.balances, all, KeysIn(all, dropped + ids), signers)
        decreases due
      {
        var e :| e in due;
        FinishVoted(e, outcomes(e.1), signers, start, all, dropped + ids);
        assert dropped + ids + {e.1} == dropped + (ids + {e.1});
        due, ids := due - {e}, ids + {e.1};
      }
      forall e | e in active
        ensures e.0 > now
      {
        assert e !in due;
      }
      NoneVoted(proposals, inactive, active, now);
      NoneUncounted(was, ids, outcomes, now);
    }

    /** Ends every period that has run out: no panic is reached, no expired entry is left, every
        deposit of an ended proposal goes back to its depositor, and nothing else changes. */
    method EndBlocker(now: int, outcomes: U64 -> Outcome, signers: map<nat, Address>)
      requires Valid() && Payable(signers)
      modifies this`proposals, this`inactive, this`active, this`deposits, bank
      ensures Valid()
      ensures forall e :: e in inactive || e in active ==> e.0 > now
      ensures proposals == Ended(old(proposals), now, outcomes)
      ensures forall id: U64 :: EndsAs(old(proposals), proposals, now, outcomes, id)
      ensures forall k :: DepositStays(old(proposals), old(deposits), deposits, now, k)
      ensures var ids := Unfunded(old(proposals), now) + Voted(old(proposals), now);
              && deposits == old(deposits) - KeysIn(old(deposits), ids)
              && Refunded(old(bank.balances), bank.balances, old(deposits), KeysIn(old(deposits), ids), signers)
    {
      ghost var was, start, all := proposals, bank.balances, deposits;
      EndDepositPeriods(now, signers, start, all);
      VotedStays(was, now);
      EndVotingPeriods(now, outcomes, signers, start, all, Unfunded(was, now));
      EndsInFull(was, all, now, outcomes);
    }
  }

  lemma TotalGrows(total: Coins, deposits: Deposits, k: Key, c: Coins)
    requires Totals(total, deposits) && k !in deposits
    ensures Totals(Add(total, c), deposits[k := c])
  {
    hide Held;
    forall d: string
      ensures AmountOf(Add(total, c), d) == Held(deposits[k := c], d)
    {
      HeldInsert(deposits, k, c, d);
    }
  }

  /** Coins are equal when they agree in every denomination. */
  lemma SameCoins(a: Coins, b: Coins)
    ensures a == b <==> forall d: string :: AmountOf(a, d) == AmountOf(b, d)
  {
    if forall d: string :: AmountOf(a, d) == AmountOf(b, d) {
      forall d: string
        ensures d in a <==> d in b
        ensures d in a ==> a[d] == b[d]
      {
        assert AmountOf(a, d) == AmountOf(b, d);
      }
    }
  }

  lemma TotalDecides(balances: Balances, deposits: Deposits, total: Coins)
    requires Totals(total, deposits)
    ensures CoinsAt(balances, GOV) == total <==> Balanced(balances, deposits)
  {
    hide Held;
    SameCoins(CoinsAt(balances, GOV), total);
    assert forall d: string :: Balance(balances, GOV, d) == AmountOf(CoinsAt(balances, GOV), d);
  }

  /** gov/invariants.go: adds up all deposits and compares the sum with the module account. */
  method ModuleAccountInvariant(balances: Balances, deposits: Deposits) returns (broken: bool)
    ensures broken <==> !Balanced(balances, deposits)
  {
    hide Totals, Add, Balanced;
    var expected: Coins := map[];
    var keys := deposits.Keys;
    NoTotal(deposits - keys);
    while keys != {}
      invariant keys <= deposits.Keys && Totals(expected, deposits - keys)
      decreases keys
    {
      var k :| k in keys;
      TotalGrows(expected, deposits - keys, k, deposits[k]);
      assert deposits - (keys - {k}) == (deposits - keys)[k := deposits[k]];
      expected := Add(expected, deposits[k]);
      keys := keys - {k};
    }
    assert deposits - {} == deposits;
    TotalDecides(balances, deposits, expected);
    broken := CoinsAt(balances, GOV) != expected;
  }
}
