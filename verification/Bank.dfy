/** Coins of several denominations and the transfers of bank/keeper.go. */
module Bank {
  type Address = nat

  /** Amounts as a message brings them. */
  type RawCoins = map<string, int>

  /** Coins that are valid: every amount is positive. */
  type Coins = c: map<string, int> | forall d :: d in c ==> c[d] > 0 witness map[]

  predicate ValidCoins(raw: RawCoins) {
    forall d :: d in raw ==> raw[d] > 0
  }

  function AmountOf(c: Coins, d: string): nat {
    if d in c then c[d] else 0
  }

  predicate Covers(a: Coins, b: Coins) {
    forall d :: d in b ==> AmountOf(a, d) >= b[d]
  }

  function Add(a: Coins, b: Coins): (r: Coins)
    ensures forall d :: AmountOf(r, d) == AmountOf(a, d) + AmountOf(b, d)
  {
    map d | d in a.Keys + b.Keys :: AmountOf(a, d) + AmountOf(b, d)
  }

  function Sub(a: Coins, b: Coins): (r: Coins)
    requires Covers(a, b)
    ensures forall d :: AmountOf(r, d) == AmountOf(a, d) - AmountOf(b, d)
  {
    map d | d in a && AmountOf(a, d) > AmountOf(b, d) :: AmountOf(a, d) - AmountOf(b, d)
  }

  type Balances = map<Address, Coins>

  function Balance(b: Balances, a: Address, d: string): nat {
    if a in b then AmountOf(b[a], d) else 0
  }

  function CoinsAt(b: Balances, a: Address): Coins {
    if a in b then b[a] else map[]
  }

  /** The change a transfer makes: the sender loses what the recipient gains. */
  ghost predicate Moved(before: Balances, now: Balances, from: Address, to: Address, amt: Coins) {
    forall a, d :: Balance(now, a, d) ==
      Balance(before, a, d) - (if a == from then AmountOf(amt, d) else 0) + (if a == to then AmountOf(amt, d) else 0)
  }

  class Keeper {
    var balances: Balances

    constructor (balances: Balances)
      ensures this.balances == balances
    {
      this.balances := balances;
    }

    method SubtractCoins(addr: Address, raw: RawCoins) returns (ok: bool)
      modifies this
      ensures ok <==> ValidCoins(raw) && Covers(old(CoinsAt(balances, addr)), raw)
      ensures balances == if ok then old(balances)[addr := Sub(old(CoinsAt(balances, addr)), raw)] else old(balances)
    {
      if !(forall d :: d in raw ==> raw[d] > 0) {
        return false;
      }
      var amt: Coins := raw;
      var coins := CoinsAt(balances, addr);
      if !Covers(coins, amt) {
        return false;
      }
      balances := balances[addr := Sub(coins, amt)];
      return true;
    }

    method AddCoins(addr: Address, raw: RawCoins) returns (ok: bool)
      modifies this
      ensures ok <==> ValidCoins(raw)
      ensures balances == if ok then old(balances)[addr := Add(old(CoinsAt(balances, addr)), raw)] else old(balances)
    {
      if !(forall d :: d in raw ==> raw[d] > 0) {
        return false;
      }
      balances := balances[addr := Add(CoinsAt(balances, addr), raw)];
      return true;
    }

    /** Fails, changing nothing, for invalid coins or those the sender does not have. */
    method SendCoins(from: Address, to: Address, raw: RawCoins) returns (ok: bool)
      modifies this
      ensures ok <==> ValidCoins(raw) && Covers(old(CoinsAt(balances, from)), raw)
      ensures ok <==> forall d :: d in raw ==> 0 < raw[d] <= Balance(old(balances), from, d)
      ensures if ok then Moved(old(balances), balances, from, to, raw) else balances == old(balances)
    {
      ok := SubtractCoins(from, raw);
      if !ok {
        return;
      }
      ok := AddCoins(to, raw);
      if !ok {
        assert false;
      }
    }
  }
}
