/** Liveness accounting (slashing/infractions.go HandleValidatorSignature, with the key layout of
    slashing/types/keys.go): a window of missed-block bits per validator and its counter. */
module MissedBlocks {
  import opened Bytes
  import opened GoInt
  import opened Options

  datatype SigningInfo = SigningInfo(startHeight: int, indexOffset: nat, missedBlocksCounter: int)
  datatype Params = Params(signedBlocksWindow: int, minSignedPerWindow: int)
  datatype State = State(bits: map<seq<Byte>, bool>, infos: map<nat, SigningInfo>)

  // ---------------------------------------------------------------- keys and bits

  /** The validator's ID in decimal, then the index in eight little-endian bytes. */
  function KeyOf(id: nat, index: nat): seq<Byte> {
    Decimal(id) + LittleEndianBytes(index, 8)
  }

  lemma KeysAreDistinct(a: nat, i: nat, b: nat, j: nat)
    requires i < TWO_TO_64 && j < TWO_TO_64 && KeyOf(a, i) == KeyOf(b, j)
    ensures a == b && i == j
  {
    assert KeyOf(a, i)[..|Decimal(a)|] == Decimal(a) && KeyOf(b, j)[..|Decimal(b)|] == Decimal(b);
    assert |KeyOf(a, i)| == |Decimal(a)| + 8 && |KeyOf(b, j)| == |Decimal(b)| + 8;
    DecimalInjective(a, b);
    assert KeyOf(a, i)[|Decimal(a)|..] == LittleEndianBytes(i, 8) &&
        KeyOf(b, j)[|Decimal(b)|..] == LittleEndianBytes(j, 8);
    EightBytes();
    LittleEndianRoundTrip(i, 8);
    LittleEndianRoundTrip(j, 8);
  }

  function BitAt(bits: map<seq<Byte>, bool>, id: nat, index: nat): bool {
    KeyOf(id, index) in bits && bits[KeyOf(id, index)]
  }

  /** The validator's bit array. */
  function BitsOf(bits: map<seq<Byte>, bool>, id: nat, window: nat): (r: seq<bool>)
    ensures |r| == window
  {
    seq(window, i requires 0 <= i < window => BitAt(bits, id, i))
  }

  function Count(s: seq<bool>): nat {
    if s == [] then 0 else Count(s[..|s| - 1]) + if s[|s| - 1] then 1 else 0
  }

  lemma {:induction false} CountUpdate(s: seq<bool>, i: nat, b: bool)
    requires i < |s|
    ensures Count(s[i := b]) == Count(s) - (if s[i] then 1 else 0) + if b then 1 else 0
  {
    var n := |s| - 1;
    if i < n {
      assert s[i := b][..n] == s[..n][i := b];
      CountUpdate(s[..n], i, b);
    } else {
      assert s[i := b][..n] == s[..n];
    }
  }

  lemma {:induction false} CountFront(s: seq<bool>)
    requires s != []
    ensures Count(s) == Count(s[1..]) + if s[0] then 1 else 0
  {
    var n := |s| - 1;
    if n > 0 {
      CountFront(s[..n]);
      assert s[..n][1..] == s[1..][..n - 1];
    }
  }

  lemma {:induction false} CountSubset(s: seq<bool>, t: seq<bool>)
    requires |s| == |t| && forall i :: 0 <= i < |s| ==> s[i] ==> t[i]
    ensures Count(s) <= Count(t) <= |t|
    ensures Count(s) == Count(t) <==> s == t
  {
    if s != [] {
      var n := |s| - 1;
      CountSubset(s[..n], t[..n]);
      assert s == s[..n] + [s[n]] && t == t[..n] + [t[n]];
    }
  }

  // ---------------------------------------------------------------- the window of a history

  /** The index of a block in the window. */
  function Slot(block: nat, window: nat): (index: nat)
    requires window > 0
    ensures index < window
  {
    block % window
  }

  /** The array after a history of blocks: each block overwrites its index. */
  function Wheel(history: seq<bool>, window: nat): (r: seq<bool>)
    requires window > 0
    ensures |r| == window
  {
    if history == [] then seq(window, _ => false)
    else
      var n := |history| - 1;
      Wheel(history[..n], window)[Slot(n, window) := history[n]]
  }

  /** The last `window` blocks, or all if there are fewer. */
  function Recent(history: seq<bool>, window: nat): seq<bool> {
    if |history| <= window then history else history[|history| - window..]
  }

  lemma SlotsAreDistinct(a: nat, b: nat, window: nat)
    requires window > 0 && a < b < a + window
    ensures Slot(a, window) != Slot(b, window)
  {
    if Slot(a, window) == Slot(b, window) {
      var d := b / window - a / window;
      assert b - a == window * d;
      MulBound(window, d);
    }
  }

  lemma SlotWraps(a: nat, window: nat)
    requires window > 0
    ensures Slot(a + window, window) == Slot(a, window)
    ensures a < window ==> Slot(a, window) == a
  {
    DivModFromParts(a + window, a / window + 1, window, a % window);
  }

  /** Block p of the recent ones is at its index; what no block has reached is false. */
  lemma {:induction false} WheelHolds(history: seq<bool>, window: nat)
    requires window > 0
    ensures forall p :: 0 <= p < |history| && |history| - window <= p ==>
              Wheel(history, window)[Slot(p, window)] == history[p]
    ensures forall j :: |history| <= j < window ==> !Wheel(history, window)[j]
  {
    hide Slot;
    if history != [] {
      var n := |history| - 1;
      WheelHolds(history[..n], window);
      forall p | 0 <= p < |history| && |history| - window <= p
        ensures Wheel(history, window)[Slot(p, window)] == history[p]
      {
        if p < n {
          SlotsAreDistinct(p, n, window);
        }
      }
      SlotWraps(n, window);
    }
  }

  /** The bit that a block overwrites is that of the block `window` before it. */
  lemma Overwritten(history: seq<bool>, window: nat)
    requires window > 0 && history != []
    ensures var n := |history| - 1;
            && Wheel(history, window) == Wheel(history[..n], window)[Slot(n, window) := history[n]]
            && (Wheel(history[..n], window)[Slot(n, window)] <==> n >= window && history[n - window])
  {
    hide Slot;
    var n := |history| - 1;
    WheelHolds(history[..n], window);
    if n < window {
      SlotWraps(n, window);
    } else {
      SlotWraps(n - window, window);
    }
  }

  lemma RecentSlides(history: seq<bool>, window: nat)
    requires window > 0 && history != []
    ensures var n := |history| - 1;
            Count(Recent(history, window)) == Count(Recent(history[..n], window))
              - (if n >= window && history[n - window] then 1 else 0) + if history[n] then 1 else 0
  {
    var n := |history| - 1;
    var recent := Recent(history[..n], window);
    if window <= n {
      CountFront(recent);
      assert Recent(history, window)[..window - 1] == recent[1..];
    }
  }

  lemma {:induction false} AllFalse(s: seq<bool>)
    requires forall i :: 0 <= i < |s| ==> !s[i]
    ensures Count(s) == 0
  {
    if s != [] {
      AllFalse(s[..|s| - 1]);
    }
  }

  /** The array holds as many true bits as blocks were missed among the recent ones. */
  lemma {:induction false} WheelCount(history: seq<bool>, window: nat)
    requires window > 0
    ensures Count(Wheel(history, window)) == Count(Recent(history, window)) <= window
  {
    CountSubset(Wheel(history, window), Wheel(history, window));
    if history == [] {
      AllFalse(Wheel(history, window));
    } else {
      var n := |history| - 1;
      WheelCount(history[..n], window);
      Overwritten(history, window);
      CountUpdate(Wheel(history[..n], window), Slot(n, window), history[n]);
      RecentSlides(history, window);
      hide Wheel, Slot, Count, Recent;
    }
  }

  // ---------------------------------------------------------------- one call

  /** The bit and the counter after a block. */
  function Marked(s: State, id: nat, signed: bool, window: nat): State
    requires id in s.infos && window > 0
  {
    var info := s.infos[id];
    var index := Slot(info.indexOffset, window);
    var previous, missed := BitAt(s.bits, id, index), !signed;
    var counter := info.missedBlocksCounter + (if missed then 1 else 0) - if previous then 1 else 0;
    State(if previous != missed then s.bits[KeyOf(id, index) := missed] else s.bits,
          s.infos[id := SigningInfo(info.startHeight, info.indexOffset + 1, counter)])
  }

  /** The validator has missed too much and is not jailed yet. */
  predicate Punished(s: State, id: nat, height: int, jailed: bool, params: Params)
    requires id in s.infos
  {
    && height > s.infos[id].startHeight + params.signedBlocksWindow
    && s.infos[id].missedBlocksCounter > params.signedBlocksWindow - params.minSignedPerWindow
    && !jailed
  }

  /** Every key that begins with the validator's ID in decimal is deleted. */
  function Cleared(bits: map<seq<Byte>, bool>, id: nat): map<seq<Byte>, bool> {
    map k | k in bits && !(Decimal(id) <= k) :: bits[k]
  }

  function Reset(s: State, id: nat): State
    requires id in s.infos
  {
    State(Cleared(s.bits, id), s.infos[id := SigningInfo(s.infos[id].startHeight, 0, 0)])
  }

  datatype Call = Call(id: nat, height: int, signed: bool, jailed: bool)

  predicate IsPunished(s: State, call: Call, params: Params)
    requires call.id in s.infos && params.signedBlocksWindow > 0
  {
    Punished(Marked(s, call.id, call.signed, params.signedBlocksWindow), call.id, call.height, call.jailed, params)
  }

  function After(s: State, call: Call, params: Params): State
    requires call.id in s.infos && params.signedBlocksWindow > 0
  {
    var marked := Marked(s, call.id, call.signed, params.signedBlocksWindow);
    if IsPunished(s, call, params) then Reset(marked, call.id) else marked
  }

  class Keeper {
    var bits: map<seq<Byte>, bool>
    var infos: map<nat, SigningInfo>

    ghost function Now(): State
      reads this
    {
      State(bits, infos)
    }

    constructor (infos: map<nat, SigningInfo>)
      ensures Now() == State(map[], infos)
    {
      this.bits, this.infos := map[], infos;
    }

    method ClearValidatorMissedBlockBitArray(id: nat)
      modifies this`bits
      ensures bits == Cleared(old(bits), id)
    {
      var prefix := Decimal(id);
      var found := set k | k in bits && prefix <= k;
      var keys := found;
      while keys != {}
        invariant keys <= found
        invariant bits == old(bits) - (found - keys)
        decreases keys
      {
        var k :| k in keys;
        bits := bits - {k};
        keys := keys - {k};
      }
    }

    /** `id` is what the address resolves to; without signing info for it the code panics. */
    method HandleValidatorSignature(id: Option<nat>, height: int, signed: bool, jailed: bool, params: Params)
      returns (ok: bool)
      requires params.signedBlocksWindow > 0
      requires id.Some? ==> id.value in infos
      modifies this
      ensures ok <==> id.Some?
      ensures Now() == if ok then After(old(Now()), Call(id.value, height, signed, jailed), params) else old(Now())
    {
      if id.None? {
        return false;
      }
      var valId := id.value;
      var signInfo := infos[valId];
      var index := signInfo.indexOffset % params.signedBlocksWindow;
      signInfo := signInfo.(indexOffset := signInfo.indexOffset + 1);
      var previous := BitAt(bits, valId, index);
      var missed := !signed;
      if !previous && missed {
        bits := bits[KeyOf(valId, index) := true];
        signInfo := signInfo.(missedBlocksCounter := signInfo.missedBlocksCounter + 1);
      } else if previous && !missed {
        bits := bits[KeyOf(valId, index) := false];
        signInfo := signInfo.(missedBlocksCounter := signInfo.missedBlocksCounter - 1);
      }
      assert State(bits, infos[valId := signInfo]) == Marked(old(Now()), valId, signed, params.signedBlocksWindow);
      var minHeight := signInfo.startHeight + params.signedBlocksWindow;
      var maxMissed := params.signedBlocksWindow - params.minSignedPerWindow;
      if height > minHeight && signInfo.missedBlocksCounter > maxMissed {
        if !jailed {
          signInfo := signInfo.(missedBlocksCounter := 0, indexOffset := 0);
          ClearValidatorMissedBlockBitArray(valId);
        }
      }
      infos := infos[valId := signInfo];
      return true;
    }
  }

  // ---------------------------------------------------------------- agreement with the history

  /** Bits and counter are those of the history since the last reset. */
  predicate Agrees(s: State, id: nat, history: seq<bool>, window: nat)
    requires window > 0
  {
    && id in s.infos && s.infos[id].indexOffset == |history|
    && BitsOf(s.bits, id, window) == Wheel(history, window)
    && s.infos[id].missedBlocksCounter == Count(Wheel(history, window))
  }

  /** The counter is the number of blocks missed among the last min(window, offset). */
  lemma CounterIsMissed(s: State, id: nat, history: seq<bool>, window: nat)
    requires window > 0 && Agrees(s, id, history, window)
    ensures s.infos[id].missedBlocksCounter == Count(BitsOf(s.bits, id, window)) == Count(Recent(history, window))
    ensures 0 <= s.infos[id].missedBlocksCounter <= window
  {
    WheelCount(history, window);
  }

  lemma BitsAfterWrite(bits: map<seq<Byte>, bool>, id: nat, index: nat, missed: bool, other: nat, window: nat)
    requires index < window <= TWO_TO_64
    ensures BitsOf(bits[KeyOf(id, index) := missed], other, window)
         == if other == id then BitsOf(bits, id, window)[index := missed] else BitsOf(bits, other, window)
  {
    forall i | 0 <= i < window
      ensures KeyOf(other, i) == KeyOf(id, index) <==> other == id && i == index
    {
      if KeyOf(other, i) == KeyOf(id, index) {
        KeysAreDistinct(other, i, id, index);
      }
    }
  }

  lemma MarkKeeps(s: State, call: Call, id: nat, history: seq<bool>, window: nat)
    requires 0 < window <= TWO_TO_64 && call.id in s.infos && Agrees(s, id, history, window)
    ensures var now := if call.id == id then history + [!call.signed] else history;
            Agrees(Marked(s, call.id, call.signed, window), id, now, window)
  {
    var index := Slot(s.infos[call.id].indexOffset, window);
    BitsAfterWrite(s.bits, call.id, index, !call.signed, id, window);
    if call.id == id {
      var now := history + [!call.signed];
      assert now[..|history|] == history;
      CountUpdate(Wheel(history, window), index, !call.signed);
      assert BitsOf(s.bits, id, window)[index] == BitAt(s.bits, id, index);
      assert BitsOf(s.bits, id, window)[index := !call.signed] == Wheel(now, window);
    }
  }

  /** No key of `other` in the window begins with the digits of `id`. */
  predicate Apart(id: nat, other: nat, window: nat) {
    forall i :: 0 <= i < window ==> !(Decimal(id) <= KeyOf(other, i))
  }

  /** IDs with equally many digits are apart. */
  lemma SameLengthApart(id: nat, other: nat, window: nat)
    requires id != other && |Decimal(id)| == |Decimal(other)|
    ensures Apart(id, other, window)
  {
    forall i | 0 <= i < window
      ensures !(Decimal(id) <= KeyOf(other, i))
    {
      if Decimal(id) <= KeyOf(other, i) {
        assert KeyOf(other, i)[..|Decimal(other)|] == Decimal(other);
        DecimalInjective(id, other);
      }
    }
  }

  lemma ClearOwn(bits: map<seq<Byte>, bool>, id: nat, window: nat)
    requires window > 0
    ensures BitsOf(Cleared(bits, id), id, window) == Wheel([], window)
  {
    forall i | 0 <= i < window
      ensures Decimal(id) <= KeyOf(id, i)
    {
      assert KeyOf(id, i)[..|Decimal(id)|] == Decimal(id);
    }
  }

  /** Clearing one validator leaves the count of another exactly when none of the other's
      missed blocks is stored under a key with the digits of the first. */
  lemma ClearKeepsCountIff(bits: map<seq<Byte>, bool>, id: nat, other: nat, window: nat)
    ensures Count(BitsOf(Cleared(bits, id), other, window)) == Count(BitsOf(bits, other, window))
            <==> forall i :: 0 <= i < window && Decimal(id) <= KeyOf(other, i) ==> !BitAt(bits, other, i)
  {
    var before, now := BitsOf(bits, other, window), BitsOf(Cleared(bits, id), other, window);
    CountSubset(now, before);
    if now == before {
      forall i | 0 <= i < window && Decimal(id) <= KeyOf(other, i)
        ensures !BitAt(bits, other, i)
      {
        assert now[i] == before[i];
      }
    }
  }

  function NextHistory(s: State, call: Call, id: nat, history: seq<bool>, params: Params): seq<bool>
    requires call.id in s.infos && params.signedBlocksWindow > 0
  {
    if call.id != id then history
    else if IsPunished(s, call, params) then []
    else history + [!call.signed]
  }

  lemma ClearOther(s: State, marked: State, id: nat, other: nat, history: seq<bool>, window: nat)
    requires window > 0 && id != other && id in marked.infos
    requires Agrees(s, other, history, window) && Agrees(marked, other, history, window)
    ensures Agrees(Reset(marked, id), other, history, window)
            <==> forall i :: 0 <= i < window && Decimal(id) <= KeyOf(other, i) ==> !BitAt(s.bits, other, i)
  {
    forall i | 0 <= i < window
      ensures BitAt(s.bits, other, i) == BitAt(marked.bits, other, i)
    {
      assert BitsOf(s.bits, other, window)[i] == BitsOf(marked.bits, other, window)[i];
    }
    ClearKeepsCountIff(marked.bits, id, other, window);
    CountSubset(BitsOf(Cleared(marked.bits, id), other, window), BitsOf(marked.bits, other, window));
  }

  /** One call keeps a validator in agreement with its history, exactly when it is not the
      reset of another validator that takes some of its true bits. */
  lemma CallKeepsIff(s: State, call: Call, id: nat, history: seq<bool>, params: Params)
    requires 0 < params.signedBlocksWindow <= TWO_TO_64 && call.id in s.infos
    requires Agrees(s, id, history, params.signedBlocksWindow)
    ensures Agrees(After(s, call, params), id, NextHistory(s, call, id, history, params), params.signedBlocksWindow)
            <==> (call.id != id && IsPunished(s, call, params) ==>
                    forall i :: 0 <= i < params.signedBlocksWindow && Decimal(call.id) <= KeyOf(id, i) ==>
                        !BitAt(s.bits, id, i))
  {
    var window := params.signedBlocksWindow;
    var marked := Marked(s, call.id, call.signed, window);
    MarkKeeps(s, call, id, history, window);
    if IsPunished(s, call, params) {
      if call.id == id {
        ClearOwn(marked.bits, id, window);
        WheelCount([], window);
      } else {
        ClearOther(s, marked, call.id, id, history, window);
      }
    }
  }

  lemma AgreesKnown(s: State, id: nat, history: seq<bool>, window: nat)
    requires window > 0 && Agrees(s, id, history, window)
    ensures id in s.infos
  {
  }

  /** A validator in agreement with its history is reset by a call exactly when the height is beyond its start by
      more than a window, more blocks of the window with this one were missed than the minimum allows, and it is
      not jailed; it then starts anew, and otherwise this block is added to its history. */
  lemma ResetIff(s: State, call: Call, history: seq<bool>, params: Params)
    requires 0 < params.signedBlocksWindow <= TWO_TO_64
    requires Agrees(s, call.id, history, params.signedBlocksWindow)
    ensures var window, now := params.signedBlocksWindow, history + [!call.signed];
            var tooMany := && call.height > s.infos[call.id].startHeight + window && !call.jailed
                           && Count(Recent(now, window)) > window - params.minSignedPerWindow;
            var t := After(s, call, params);
            && Agrees(t, call.id, if tooMany then [] else now, window)
            && t.infos[call.id].startHeight == s.infos[call.id].startHeight
            && t.infos - {call.id} == s.infos - {call.id}
  {
    hide Agrees, BitAt, KeyOf, Decimal, Recent, Wheel, Count, BitsOf, Slot;
    var window, now := params.signedBlocksWindow, history + [!call.signed];
    AgreesKnown(s, call.id, history, window);
    MarkKeeps(s, call, call.id, history, window);
    AgreesKnown(Marked(s, call.id, call.signed, window), call.id, now, window);
    CounterIsMissed(Marked(s, call.id, call.signed, window), call.id, now, window);
    CallKeepsIff(s, call, call.id, history, params);
  }

  /** The bit of each recent block is at its number in the history modulo the window. */
  lemma BitsAreRecent(s: State, id: nat, history: seq<bool>, window: nat, p: nat)
    requires window > 0 && Agrees(s, id, history, window)
    ensures p < |history| <= p + window ==> BitAt(s.bits, id, p % window) == history[p]
    ensures |history| <= p < window ==> !BitAt(s.bits, id, p)
  {
    WheelHolds(history, window);
    if p < |history| <= p + window {
      assert BitsOf(s.bits, id, window)[p % window] == Wheel(history, window)[Slot(p, window)];
    }
    if |history| <= p < window {
      assert BitsOf(s.bits, id, window)[p] == Wheel(history, window)[p];
    }
  }

  // ---------------------------------------------------------------- runs

  /** The state and the histories after the calls. */
  ghost function Run(start: State, calls: seq<Call>, params: Params): (r: (State, map<nat, seq<bool>>))
    requires params.signedBlocksWindow > 0 && forall i :: 0 <= i < |calls| ==> calls[i].id in start.infos
    ensures r.0.infos.Keys == start.infos.Keys == r.1.Keys
  {
    if calls == [] then (start, map id | id in start.infos :: [])
    else
      var (s, histories) := Run(start, calls[..|calls| - 1], params);
      var call := calls[|calls| - 1];
      (After(s, call, params), histories[call.id := NextHistory(s, call, call.id, histories[call.id], params)])
  }

  lemma StartAgrees(start: State, id: nat, window: nat)
    requires window > 0 && start.bits == map[] && id in start.infos
    requires start.infos[id].indexOffset == 0 == start.infos[id].missedBlocksCounter
    ensures Agrees(start, id, [], window)
  {
    WheelCount([], window);
    assert BitsOf(start.bits, id, window) == Wheel([], window);
  }

  /** Over any calls for validators whose IDs are apart, every validator's bits and counter
      are those of its history. */
  lemma {:induction false} RunsAgree(start: State, calls: seq<Call>, params: Params, id: nat)
    requires 0 < params.signedBlocksWindow <= TWO_TO_64 && forall i :: 0 <= i < |calls| ==> calls[i].id in start.infos
    requires start.bits == map[]
    requires forall k :: k in start.infos ==> start.infos[k].indexOffset == 0 == start.infos[k].missedBlocksCounter
    requires id in start.infos && forall k :: k in start.infos && k != id ==> Apart(k, id, params.signedBlocksWindow)
    ensures var (s, histories) := Run(start, calls, params);
            Agrees(s, id, histories[id], params.signedBlocksWindow)
  {
    hide Agrees, After, BitAt, IsPunished, KeyOf, Decimal;
    if calls == [] {
      StartAgrees(start, id, params.signedBlocksWindow);
    } else {
      var n := |calls| - 1;
      RunsAgree(start, calls[..n], params, id);
      var (s, histories) := Run(start, calls[..n], params);
      CallKeepsIff(s, calls[n], id, histories[id], params);
    }
  }

  /** It fails otherwise: the reset of validator 1 clears the bit of validator 10 ... */
  lemma ResetTakesOthersBits()
    ensures var params := Params(2, 2);
            var s := State(map[KeyOf(10, 0) := true], map[1 := SigningInfo(0, 0, 0), 10 := SigningInfo(0, 1, 1)]);
            var t := After(s, Call(1, 100, false, false), params);
            && Agrees(s, 10, [true], 2) && IsPunished(s, Call(1, 100, false, false), params)
            && t.infos[10].missedBlocksCounter == 1 && Count(BitsOf(t.bits, 10, 2)) == 0
  {
    var params := Params(2, 2);
    var s := State(map[KeyOf(10, 0) := true], map[1 := SigningInfo(0, 0, 0), 10 := SigningInfo(0, 1, 1)]);
    BitsAfterWrite(map[], 10, 0, true, 10, 2);
    assert map[][KeyOf(10, 0) := true] == s.bits;
    assert BitsOf(map[], 10, 2) == Wheel([], 2);
    assert Wheel([true], 2) == [true, false];
    assert [true, false][..1] == [true] && [true][..0] == [];
    var call := Call(1, 100, false, false);
    MarkKeeps(s, call, 10, [true], 2);
    var t := After(s, call, params);
    assert Decimal(1) == [49] && Decimal(10) == [49] + [48];
    AllFalse(BitsOf(t.bits, 10, 2));
  }

  /** ... and the reset of validator 10 that of validator 1 at index 48, the code of '0'. */
  lemma LongerIdTakesBitsToo()
    ensures !Apart(10, 1, 49)
  {
    assert Decimal(10) == [49] + [48];
    assert KeyOf(1, 48)[..2] == [49] + [48];
  }
}
