/** bor/shuffle.go: the swap-or-not shuffle, `compute_shuffled_index` of the Ethereum
    consensus specifications (Phase 0, The Beacon Chain), in its per-index form and in
    the in-place list form that caches hashes. */
module Shuffle {
  import opened Bytes
  import opened GoInt

  const SEED_SIZE := 32
  const PIVOT_VIEW_SIZE := 33
  const TOTAL_SIZE := 37
  const ROUNDS: nat := 90
  const MAX_LIST_SIZE: int := 0x100_0000_0000

  datatype Outcome<T> = Success(value: T) | IndexOutOfBounds | SizeOutOfBounds

  // ---------------------------------------------------------------- byte strings

  /** ToBytes writes 8 little-endian bytes into a buffer of at least 8 and cuts it to `length`. */
  function ToBytes(x: uint64, length: nat): seq<Byte> {
    if length < 8
    then LittleEndianBytes(x as int, 8)[..length]
    else LittleEndianBytes(x as int, 8) + seq(length - 8, _ => 0)
  }

  /** binary.LittleEndian.PutUint32 of a value converted to uint32. */
  function Uint32Bytes(x: nat): (bytes: seq<Byte>)
    ensures |bytes| == 4
  {
    LittleEndianBytes(x % TWO_TO_32, 4)
  }

  /** ToBytes is int_to_bytes: `length` little-endian bytes, whatever the length. */
  lemma ToBytesIsLittleEndian(x: uint64, length: nat)
    ensures ToBytes(x, length) == LittleEndianBytes(x as int, length)
  {
    if length < 8 {
      BytesPrefix(x as int, length, 8);
    } else {
      assert Pow256(8) == TWO_TO_64 by {
        FourBytes();
      }
      BytesPadding(x as int, 8, length, TWO_TO_64);
    }
  }

  /** Converting to uint32 first does not change the four bytes written. */
  lemma Uint32BytesIsLittleEndian(x: nat)
    ensures Uint32Bytes(x) == LittleEndianBytes(x, 4)
  {
    FourBytes();
    BytesOfRemainder(x, 4);
  }

  /** The 2^40 bound on list sizes is what keeps windows of 256 positions apart in the
      four bytes that select the hash. */
  lemma WindowsAreDistinct(a: nat, b: nat)
    requires a < MAX_LIST_SIZE && b < MAX_LIST_SIZE
    ensures Uint32Bytes(a / 256) == Uint32Bytes(b / 256) <==> a / 256 == b / 256
  {
    FourBytes();
    Uint32BytesIsLittleEndian(a / 256);
    Uint32BytesIsLittleEndian(b / 256);
    LittleEndianRoundTrip(a / 256, 4);
    LittleEndianRoundTrip(b / 256, 4);
  }

  // ------------------------------------------------- the specification, one round

  function Pow2(k: nat): (r: nat)
    ensures r > 0
  {
    if k == 0 then 1 else 2 * Pow2(k - 1)
  }

  function BitOf(b: Byte, k: nat): bool {
    (b / Pow2(k)) % 2 == 1
  }

  function Pivot(h: Hasher, view: seq<Byte>, n: nat): (p: nat)
    requires n > 0
    ensures p < n
  {
    LittleEndian(h(view)[..8]) % n
  }

  /** The hash that covers the 256 positions around `position`. */
  function Source(h: Hasher, view: seq<Byte>, position: nat): Digest {
    h(view + LittleEndianBytes(position / 256, 4))
  }

  function SourceByte(h: Hasher, view: seq<Byte>, position: nat): Byte {
    Source(h, view, position)[position % 256 / 8]
  }

  predicate SwapBit(h: Hasher, view: seq<Byte>, position: nat) {
    BitOf(SourceByte(h, view, position), position % 8)
  }

  lemma Pow2Sum(a: nat, b: nat)
    ensures Pow2(a + b) == Pow2(a) * Pow2(b)
  {
    if b > 0 {
      Pow2Sum(a, b - 1);
    }
  }

  lemma DivideInSteps(x: nat, a: nat, b: nat)
    requires a > 0 && b > 0 && a * b > 0
    ensures x / (a * b) == x / a / b
  {
    var q, r := x / a / b, x / a % b;
    assert x == a * (b * q + r) + x % a;
    Distribute(b * q, r, a);
    assert a * (b * q) == (a * b) * q;
    ProductOrdered(r, b - 1, a);
    Distribute(b, -1, a);
    DivModFromParts(x, q, a * b, a * r + x % a);
  }

  lemma EightBits()
    ensures Pow2(7) == 128 && Pow2(8) == 256
  {
    assert Pow2(8) == 2 * Pow2(7) == 4 * Pow2(6) == 8 * Pow2(5) == 16 * Pow2(4) == 32 * Pow2(3) == 64 * Pow2(2);
  }

  /** Adding a multiple of 256 changes none of the lower eight bits. */
  lemma LowBits(b: Byte, rest: nat, k: nat)
    requires k < 8
    ensures (b + 256 * rest) / Pow2(k) % 2 == b / Pow2(k) % 2
  {
    hide Pow2;
    var m, step := Pow2(k), Pow2(7 - k);
    Pow2Sum(k, 7 - k);
    EightBits();
    assert m * (2 * (step * rest)) == 2 * (m * step) * rest;
    EvenShift(b, m, step * rest);
  }

  lemma HighBits(b: Byte, rest: nat, k: nat)
    requires k >= 8
    ensures (b + 256 * rest) / Pow2(k) == rest / Pow2(k - 8)
  {
    hide Pow2;
    Pow2Sum(8, k - 8);
    EightBits();
    DivideInSteps(b + 256 * rest, 256, Pow2(k - 8));
  }

  /** Bit k of a byte string read as one little-endian number is bit k % 8 of byte k / 8. */
  lemma {:induction false} BitOfNumber(bytes: seq<Byte>, k: nat)
    requires k < 8 * |bytes|
    ensures LittleEndian(bytes) / Pow2(k) % 2 == bytes[k / 8] / Pow2(k % 8) % 2
  {
    hide Pow2;
    if k < 8 {
      LowBits(bytes[0], LittleEndian(bytes[1..]), k);
    } else {
      BitOfNumber(bytes[1..], k - 8);
      HighBits(bytes[0], LittleEndian(bytes[1..]), k);
      assert k % 8 == (k - 8) % 8 && k / 8 == (k - 8) / 8 + 1;
      assert bytes[1..][(k - 8) / 8] == bytes[k / 8];
    }
  }

  /** The deciding bit is bit `position % 256` of the digest of the window, read as one number. */
  lemma SwapBitIsDigestBit(h: Hasher, view: seq<Byte>, position: nat)
    ensures SwapBit(h, view, position) <==>
            LittleEndian(h(view + LittleEndianBytes(position / 256, 4))) / Pow2(position % 256) % 2 == 1
  {
    hide LittleEndian, LittleEndianBytes, Pow2;
    var k := position % 256;
    BitOfNumber(h(view + LittleEndianBytes(position / 256, 4)), k);
    DivModFromParts(position, 32 * (position / 256) + k / 8, 8, k % 8);
  }

  function Flip(pivot: nat, n: nat, i: nat): (f: nat)
    requires pivot < n && i < n
    ensures f < n
  {
    (pivot + n - i) % n
  }

  function Max(a: nat, b: nat): nat {
    if a >= b then a else b
  }

  /** Where one round sends index `i`; `view` is the seed followed by the round number. */
  function RoundOf(h: Hasher, view: seq<Byte>, n: nat, i: nat): (r: nat)
    requires i < n
    ensures r < n
  {
    var flip := Flip(Pivot(h, view, n), n, i);
    if SwapBit(h, view, Max(i, flip)) then flip else i
  }

  function Round(h: Hasher, seed: Digest, n: nat, round: Byte, i: nat): (r: nat)
    requires i < n
    ensures r < n
  {
    RoundOf(h, seed + [round], n, i)
  }

  lemma FlipCases(pivot: nat, n: nat, i: nat)
    requires pivot < n && i < n
    ensures i <= pivot ==> Flip(pivot, n, i) == pivot - i
    ensures i > pivot ==> Flip(pivot, n, i) == pivot + n - i
  {
    if i <= pivot {
      assert pivot + n - i == n + (pivot - i);
    }
  }

  /** A round undoes itself, because both ends of a pair read the bit of the higher one. */
  lemma RoundIsInvolution(h: Hasher, seed: Digest, n: nat, round: Byte, i: nat)
    requires i < n
    ensures Round(h, seed, n, round, Round(h, seed, n, round, i)) == i
  {
    var pivot := Pivot(h, seed + [round], n);
    FlipCases(pivot, n, i);
    FlipCases(pivot, n, Flip(pivot, n, i));
  }

  // ------------------------------------------------- a round, read off the digests alone

  /** i and f add up to the first eight bytes of the round's digest, modulo n. */
  predicate Partners(h: Hasher, view: seq<Byte>, n: nat, i: nat, f: nat) {
    i < n && f < n && (i + f) % n == LittleEndian(h(view)[..8]) % n
  }

  /** Bit p % 256 of the digest of p's window, read as one number, is set. */
  predicate DigestBit(h: Hasher, view: seq<Byte>, p: nat) {
    LittleEndian(h(view + LittleEndianBytes(p / 256, 4))) / Pow2(p % 256) % 2 == 1
  }

  /** Index i has a partner f, and goes to f if the bit of the larger of the two is set; if not, it stays. */
  ghost predicate Moves(h: Hasher, view: seq<Byte>, n: nat, i: nat, r: nat) {
    exists f: nat :: Partners(h, view, n, i, f) && r == if DigestBit(h, view, if i < f then f else i) then f else i
  }

  lemma SumModulo(a: nat, b: nat, n: nat, p: nat)
    requires a < n && b < n && p < n
    ensures (a + b) % n == p <==> a + b == p || a + b == p + n
  {
    if a + b < n {
      DivModFromParts(a + b, 0, n, a + b);
    } else {
      DivModFromParts(a + b, 1, n, a + b - n);
    }
  }

  lemma FlipIsPartner(h: Hasher, view: seq<Byte>, n: nat, i: nat, f: nat)
    requires i < n
    ensures Partners(h, view, n, i, f) <==> f == Flip(Pivot(h, view, n), n, i)
  {
    hide LittleEndian, Flip;
    var pivot := Pivot(h, view, n);
    FlipCases(pivot, n, i);
    if f < n {
      SumModulo(i, f, n, pivot);
    }
  }

  lemma DigestBitDecides(h: Hasher, view: seq<Byte>, p: nat)
    ensures DigestBit(h, view, p) <==> SwapBit(h, view, p)
  {
    SwapBitIsDigestBit(h, view, p);
  }

  /** The round of the code is that of the digests: the partner is unique, and the bit decides. */
  lemma RoundFollowsDigests(h: Hasher, view: seq<Byte>, n: nat, i: nat, r: nat)
    requires i < n
    ensures Moves(h, view, n, i, r) <==> r == RoundOf(h, view, n, i)
  {
    hide Partners, DigestBit, Flip, Pivot, SwapBit;
    var flip := Flip(Pivot(h, view, n), n, i);
    FlipIsPartner(h, view, n, i, flip);
    DigestBitDecides(h, view, Max(i, flip));
    if Moves(h, view, n, i, r) {
      var f: nat :| Partners(h, view, n, i, f) && r == if DigestBit(h, view, if i < f then f else i) then f else i;
      FlipIsPartner(h, view, n, i, f);
    }
  }

  // ------------------------------------------------- the specification, all rounds

  /** Rounds lo, lo+1, ..., hi-1 in this order. */
  function Up(h: Hasher, seed: Digest, n: nat, lo: nat, hi: nat, i: nat): (r: nat)
    requires i < n && lo <= hi <= 256
    ensures r < n
    decreases hi, i
  {
    if lo == hi then i else Round(h, seed, n, hi - 1, Up(h, seed, n, lo, hi - 1, i))
  }

  /** Rounds hi-1, ..., lo in this order. */
  function Down(h: Hasher, seed: Digest, n: nat, lo: nat, hi: nat, i: nat): (r: nat)
    requires i < n && lo <= hi <= 256
    ensures r < n
    decreases hi, i
  {
    if lo == hi then i else Down(h, seed, n, lo, hi - 1, Round(h, seed, n, hi - 1, i))
  }

  function ShuffledIndex(h: Hasher, seed: Digest, n: nat, i: nat): (r: nat)
    requires i < n
    ensures r < n
  {
    Up(h, seed, n, 0, ROUNDS, i)
  }

  function UnShuffledIndex(h: Hasher, seed: Digest, n: nat, i: nat): (r: nat)
    requires i < n
    ensures r < n
  {
    Down(h, seed, n, 0, ROUNDS, i)
  }

  lemma {:induction false} DownUndoesUp(h: Hasher, seed: Digest, n: nat, lo: nat, hi: nat, i: nat)
    requires i < n && lo <= hi <= 256
    ensures Down(h, seed, n, lo, hi, Up(h, seed, n, lo, hi, i)) == i
    decreases hi
  {
    if lo < hi {
      RoundIsInvolution(h, seed, n, hi - 1, Up(h, seed, n, lo, hi - 1, i));
      DownUndoesUp(h, seed, n, lo, hi - 1, i);
    }
  }

  lemma {:induction false} UpUndoesDown(h: Hasher, seed: Digest, n: nat, lo: nat, hi: nat, i: nat)
    requires i < n && lo <= hi <= 256
    ensures Up(h, seed, n, lo, hi, Down(h, seed, n, lo, hi, i)) == i
    decreases hi
  {
    if lo < hi {
      UpUndoesDown(h, seed, n, lo, hi - 1, Round(h, seed, n, hi - 1, i));
      RoundIsInvolution(h, seed, n, hi - 1, i);
    }
  }

  /** ShuffledIndex and UnShuffledIndex are inverse bijections of [0, n). */
  lemma IndexRoundTrip(h: Hasher, seed: Digest, n: nat, i: nat)
    requires i < n
    ensures UnShuffledIndex(h, seed, n, ShuffledIndex(h, seed, n, i)) == i
    ensures ShuffledIndex(h, seed, n, UnShuffledIndex(h, seed, n, i)) == i
  {
    DownUndoesUp(h, seed, n, 0, ROUNDS, i);
    UpUndoesDown(h, seed, n, 0, ROUNDS, i);
  }

  /** A chain of 90 rounds: round r sends the r-th index to the next. */
  ghost predicate Trace(h: Hasher, seed: Digest, n: nat, t: seq<nat>) {
    && |t| == ROUNDS + 1 == 91 && t[0] < n
    && forall r :: 0 <= r < ROUNDS ==> Moves(h, seed + [r], n, t[r], t[r + 1])
  }

  lemma {:induction false} TraceIsUp(h: Hasher, seed: Digest, n: nat, t: seq<nat>, k: nat)
    requires Trace(h, seed, n, t) && k <= ROUNDS
    ensures t[k] == Up(h, seed, n, 0, k, t[0])
  {
    hide RoundOf, Moves;
    if k > 0 {
      TraceIsUp(h, seed, n, t, k - 1);
      RoundFollowsDigests(h, seed + [k - 1], n, t[k - 1], t[k]);
    }
  }

  /** Every chain of rounds, described by the digests alone, leads from an index to its shuffled one, and back. */
  lemma TraceIsShuffle(h: Hasher, seed: Digest, n: nat, t: seq<nat>)
    requires Trace(h, seed, n, t)
    ensures t[ROUNDS] == ShuffledIndex(h, seed, n, t[0])
    ensures t[ROUNDS] < n && t[0] == UnShuffledIndex(h, seed, n, t[ROUNDS])
  {
    hide Moves, Up, Down;
    TraceIsUp(h, seed, n, t, ROUNDS);
    IndexRoundTrip(h, seed, n, t[0]);
  }

  lemma TraceFrom(h: Hasher, seed: Digest, n: nat, i: nat) returns (t: seq<nat>)
    requires i < n
    ensures Trace(h, seed, n, t) && t[0] == i
  {
    hide Moves, RoundOf;
    t := seq(ROUNDS + 1, r requires 0 <= r <= ROUNDS => Up(h, seed, n, 0, r, i));
    forall r | 0 <= r < ROUNDS
      ensures Moves(h, seed + [r], n, t[r], t[r + 1])
    {
      RoundFollowsDigests(h, seed + [r], n, t[r], t[r + 1]);
    }
  }

  ghost predicate ShufflesTo(h: Hasher, seed: Digest, n: nat, i: nat, r: nat) {
    exists t :: Trace(h, seed, n, t) && t[0] == i && t[ROUNDS] == r
  }

  /** The per-index form follows the digests, in both directions. */
  lemma ShuffleFollowsDigests(h: Hasher, seed: Digest, n: nat, i: nat, r: nat)
    requires i < n && r < n
    ensures ShufflesTo(h, seed, n, i, r) <==> r == ShuffledIndex(h, seed, n, i)
    ensures ShufflesTo(h, seed, n, i, r) <==> i == UnShuffledIndex(h, seed, n, r)
  {
    hide Moves, ShuffledIndex, UnShuffledIndex;
    var from := TraceFrom(h, seed, n, i);
    TraceIsShuffle(h, seed, n, from);
    IndexRoundTrip(h, seed, n, i);
    IndexRoundTrip(h, seed, n, r);
    if ShufflesTo(h, seed, n, i, r) {
      var t :| Trace(h, seed, n, t) && t[0] == i && t[ROUNDS] == r;
      TraceIsShuffle(h, seed, n, t);
    }
  }

  // ---------------------------------------------------------------- lists

  /** One round on a whole list: position x receives the entry of position Round(x). */
  function ListRound<T>(h: Hasher, seed: Digest, round: Byte, s: seq<T>): (t: seq<T>)
    ensures |t| == |s|
    ensures forall x :: 0 <= x < |s| ==> t[x] == s[Round(h, seed, |s|, round, x)]
  {
    seq(|s|, x requires 0 <= x < |s| => s[Round(h, seed, |s|, round, x)])
  }

  function ListUp<T>(h: Hasher, seed: Digest, lo: nat, hi: nat, s: seq<T>): (t: seq<T>)
    requires lo <= hi <= 256
    ensures |t| == |s|
    decreases hi, s
  {
    if lo == hi then s else ListRound(h, seed, hi - 1, ListUp(h, seed, lo, hi - 1, s))
  }

  function ListDown<T>(h: Hasher, seed: Digest, lo: nat, hi: nat, s: seq<T>): (t: seq<T>)
    requires lo <= hi <= 256
    ensures |t| == |s|
    decreases hi, s
  {
    if lo == hi then s else ListDown(h, seed, lo, hi - 1, ListRound(h, seed, hi - 1, s))
  }

  function Shuffled<T>(h: Hasher, seed: Digest, s: seq<T>): (t: seq<T>)
    ensures |t| == |s|
  {
    ListUp(h, seed, 0, ROUNDS, s)
  }

  function Unshuffled<T>(h: Hasher, seed: Digest, s: seq<T>): (t: seq<T>)
    ensures |t| == |s|
  {
    ListDown(h, seed, 0, ROUNDS, s)
  }

  lemma {:induction false} ListUpReadsDown<T>(h: Hasher, seed: Digest, lo: nat, hi: nat, s: seq<T>, x: nat)
    requires x < |s| && lo <= hi <= 256
    ensures ListUp(h, seed, lo, hi, s)[x] == s[Down(h, seed, |s|, lo, hi, x)]
    decreases hi
  {
    if lo < hi {
      ListUpReadsDown(h, seed, lo, hi - 1, s, Round(h, seed, |s|, hi - 1, x));
    }
  }

  lemma {:induction false} ListDownReadsUp<T>(h: Hasher, seed: Digest, lo: nat, hi: nat, s: seq<T>, x: nat)
    requires x < |s| && lo <= hi <= 256
    ensures ListDown(h, seed, lo, hi, s)[x] == s[Up(h, seed, |s|, lo, hi, x)]
    decreases hi
  {
    if lo < hi {
      ListDownReadsUp(h, seed, lo, hi - 1, ListRound(h, seed, hi - 1, s), x);
    }
  }

  /** The list form refines the per-index form, in both directions. */
  lemma ListRefinesIndex<T>(h: Hasher, seed: Digest, s: seq<T>, i: nat)
    requires i < |s|
    ensures Shuffled(h, seed, s)[ShuffledIndex(h, seed, |s|, i)] == s[i]
    ensures Unshuffled(h, seed, s)[i] == s[ShuffledIndex(h, seed, |s|, i)]
  {
    ListUpReadsDown(h, seed, 0, ROUNDS, s, ShuffledIndex(h, seed, |s|, i));
    ListDownReadsUp(h, seed, 0, ROUNDS, s, i);
    IndexRoundTrip(h, seed, |s|, i);
  }

  /** Shuffling a list moves each entry where the digests send its position. */
  lemma EntriesFollowDigests<T>(h: Hasher, seed: Digest, s: seq<T>, i: nat, r: nat)
    requires i < |s| && r < |s| && ShufflesTo(h, seed, |s|, i, r)
    ensures Shuffled(h, seed, s)[r] == s[i] && Unshuffled(h, seed, s)[i] == s[r]
  {
    hide ShufflesTo, Shuffled, Unshuffled, ShuffledIndex, UnShuffledIndex;
    ShuffleFollowsDigests(h, seed, |s|, i, r);
    ListRefinesIndex(h, seed, s, i);
  }

  lemma AllEntriesFollow<T>(h: Hasher, seed: Digest, s: seq<T>)
    ensures forall i: nat, r: nat :: i < |s| && r < |s| && ShufflesTo(h, seed, |s|, i, r) ==>
              Shuffled(h, seed, s)[r] == s[i] && Unshuffled(h, seed, s)[i] == s[r]
  {
    hide ShufflesTo, Shuffled, Unshuffled;
    forall i: nat, r: nat | i < |s| && r < |s| && ShufflesTo(h, seed, |s|, i, r)
      ensures Shuffled(h, seed, s)[r] == s[i] && Unshuffled(h, seed, s)[i] == s[r]
    {
      EntriesFollowDigests(h, seed, s, i, r);
    }
  }

  lemma ListRoundTrip<T>(h: Hasher, seed: Digest, s: seq<T>)
    ensures Unshuffled(h, seed, Shuffled(h, seed, s)) == s
    ensures Shuffled(h, seed, Unshuffled(h, seed, s)) == s
  {
    forall i | 0 <= i < |s|
      ensures Unshuffled(h, seed, Shuffled(h, seed, s))[i] == s[i]
      ensures Shuffled(h, seed, Unshuffled(h, seed, s))[i] == s[i]
    {
      ListRefinesIndex(h, seed, Shuffled(h, seed, s), i);
      ListRefinesIndex(h, seed, s, i);
      var j := UnShuffledIndex(h, seed, |s|, i);
      IndexRoundTrip(h, seed, |s|, i);
      ListRefinesIndex(h, seed, Unshuffled(h, seed, s), j);
      ListRefinesIndex(h, seed, s, j);
    }
  }

  lemma {:induction false} RearrangementKeepsMultiset<T>(s: seq<T>, t: seq<T>, p: seq<nat>)
    requires |p| == |s| == |t|
    requires forall x :: 0 <= x < |p| ==> p[x] < |s| && t[x] == s[p[x]]
    requires forall x, y :: 0 <= x < y < |p| ==> p[x] != p[y]
    ensures multiset(t) == multiset(s)
  {
    if s != [] {
      var last := |s| - 1;
      var k := p[last];
      var s' := s[..k] + s[k + 1..];
      var p' := seq(last, x requires 0 <= x < last => if p[x] < k then p[x] else p[x] - 1);
      RearrangementKeepsMultiset(s', t[..last], p');
      assert s == s[..k] + [s[k]] + s[k + 1..];
      assert t == t[..last] + [s[k]];
    }
  }

  /** Shuffling loses and duplicates nothing. */
  lemma ShuffleIsPermutation<T>(h: Hasher, seed: Digest, s: seq<T>)
    ensures multiset(Shuffled(h, seed, s)) == multiset(s)
    ensures multiset(Unshuffled(h, seed, s)) == multiset(s)
  {
    var n := |s|;
    var t := Unshuffled(h, seed, s);
    var p: seq<nat> := seq(n, x requires 0 <= x < n => ShuffledIndex(h, seed, n, x));
    forall x | 0 <= x < n
      ensures t[x] == s[p[x]] && UnShuffledIndex(h, seed, n, p[x]) == x
    {
      ListRefinesIndex(h, seed, s, x);
      IndexRoundTrip(h, seed, n, x);
    }
    RearrangementKeepsMultiset(s, t, p);
    var u := Shuffled(h, seed, s);
    var q: seq<nat> := seq(n, x requires 0 <= x < n => UnShuffledIndex(h, seed, n, x));
    forall x | 0 <= x < n
      ensures u[x] == s[q[x]] && ShuffledIndex(h, seed, n, q[x]) == x
    {
      ListUpReadsDown(h, seed, 0, ROUNDS, s, x);
      IndexRoundTrip(h, seed, n, x);
    }
    RearrangementKeepsMultiset(s, u, q);
  }

  // ---------------------------------------------------------------- the per-index form

  /** The body of the round loop; the seed and the round number are already in `buf`. */
  method RunRound(h: Hasher, buf: array<Byte>, index: uint64, indexCount: uint64) returns (r: uint64)
    requires buf.Length == TOTAL_SIZE && index < indexCount && indexCount as int <= MAX_LIST_SIZE
    modifies buf
    ensures buf[..PIVOT_VIEW_SIZE] == old(buf[..PIVOT_VIEW_SIZE])
    ensures r as int == RoundOf(h, buf[..PIVOT_VIEW_SIZE], indexCount as int, index as int)
    ensures Moves(h, buf[..PIVOT_VIEW_SIZE], indexCount as int, index as int, r as int)
  {
    hide LittleEndian, LittleEndianBytes, ToBytes, Pow2, Moves;
    var hash := h(buf[..PIVOT_VIEW_SIZE]);
    var pivot := (LittleEndian(hash[..8]) % (indexCount as int)) as uint64;
    var flip := (pivot + indexCount - index) % indexCount;
    var position := index;
    if flip > position {
      position := flip;
    }
    var position4bytes := ToBytes(position / 256, 4);
    ToBytesIsLittleEndian(position / 256, 4);
    ghost var view := buf[..PIVOT_VIEW_SIZE];
    forall k | 0 <= k < 4 { buf[PIVOT_VIEW_SIZE + k] := position4bytes[k]; }
    assert buf[..] == view + position4bytes;
    var source := h(buf[..]);
    var byteV := source[position % 256 / 8];
    assert byteV == SourceByte(h, view, position as int);
    assert flip as int == Flip(Pivot(h, view, indexCount as int), indexCount as int, index as int);
    assert position as int == Max(index as int, flip as int);
    var bitV := byteV / Pow2((position % 8) as int) % 2;
    r := if bitV == 1 then flip else index;
    assert buf[..PIVOT_VIEW_SIZE] == view;
    RoundFollowsDigests(h, view, indexCount as int, index as int, r as int);
  }

  method InnerShuffledIndex(h: Hasher, start: uint64, indexCount: uint64, seed: Digest, shuffle: bool)
    returns (r: Outcome<uint64>)
    ensures start >= indexCount ==> r == IndexOutOfBounds
    ensures start < indexCount && indexCount as int > MAX_LIST_SIZE ==> r == SizeOutOfBounds
    ensures start < indexCount && indexCount as int <= MAX_LIST_SIZE ==>
      && r.Success?
      && r.value as int == if shuffle then ShuffledIndex(h, seed, indexCount as int, start as int)
                                      else UnShuffledIndex(h, seed, indexCount as int, start as int)
    ensures r.Success? ==> if shuffle then ShufflesTo(h, seed, indexCount as int, start as int, r.value as int)
                                      else ShufflesTo(h, seed, indexCount as int, r.value as int, start as int)
  {
    hide ShufflesTo, Moves, RoundOf;
    var index := start;
    if index >= indexCount {
      return IndexOutOfBounds;
    }
    if indexCount as int > MAX_LIST_SIZE {
      return SizeOutOfBounds;
    }
    var rounds: uint8 := 90;
    var round: uint8 := if shuffle then 0 else rounds - 1;
    var buf := new Byte[TOTAL_SIZE];
    forall k | 0 <= k < SEED_SIZE { buf[k] := seed[k]; }
    ghost var n := indexCount as int;
    while true
      invariant 0 <= round < rounds && index < indexCount
      invariant buf[..SEED_SIZE] == seed
      invariant shuffle ==> index as int == Up(h, seed, n, 0, round as int, start as int)
      invariant !shuffle ==>
                  Down(h, seed, n, 0, round as int + 1, index as int) == UnShuffledIndex(h, seed, n, start as int)
      decreases if shuffle then rounds - round else round
    {
      buf[SEED_SIZE] := round as int;
      assert buf[..PIVOT_VIEW_SIZE] == seed + [round as int];
      index := RunRound(h, buf, index, indexCount);
      if shuffle {
        round := round + 1;
        if round == rounds {
          break;
        }
      } else {
        if round == 0 {
          break;
        }
        round := round - 1;
      }
    }
    if shuffle {
      ShuffleFollowsDigests(h, seed, n, start as int, index as int);
    } else {
      ShuffleFollowsDigests(h, seed, n, index as int, start as int);
    }
    return Success(index);
  }

  // ---------------------------------------------------------------- the list form

  /** The cached byte and hash are those of position `position`, unless the position is the
      first one met of a new byte or a new hash. */
  ghost predicate Cached(h: Hasher, view: seq<Byte>, position: nat, byteV: Byte, source: Digest) {
    && (position % 256 != 255 ==> source == Source(h, view, position))
    && (position % 8 != 7 ==> byteV == SourceByte(h, view, position))
  }

  lemma StepDown(j: nat, m: nat)
    requires j > 0 && m > 0
    ensures j % m == 0 ==> (j - 1) % m == m - 1
    ensures j % m != 0 ==> (j - 1) % m == j % m - 1 && (j - 1) / m == j / m
  {
    if j % m == 0 {
      assert m * (j / m - 1) == m * (j / m) - m;
      DivModFromParts(j - 1, j / m - 1, m, m - 1);
    } else {
      DivModFromParts(j - 1, j / m, m, j % m - 1);
    }
  }

  /** Stepping down one position leaves the window, and the byte in it, unless the position
      reached is the last of one. */
  lemma StepDownPlaces(j: nat)
    requires j > 0
    ensures (j - 1) % 256 != 255 ==> (j - 1) / 256 == j / 256
    ensures (j - 1) % 8 != 7 ==> (j - 1) % 256 != 255 && (j - 1) % 256 / 8 == j % 256 / 8
  {
    StepDown(j, 256);
    StepDown(j, 8);
    var q, r, b := j / 256, j % 256 / 8, j % 256 % 8;
    DivModFromParts(j, 32 * q + r, 8, b);
    if b > 0 {
      DivModFromParts(j - 1, q, 256, 8 * r + b - 1);
      DivModFromParts(8 * r + b - 1, r, 8, b - 1);
    }
  }

  lemma CacheCarriesOver(h: Hasher, view: seq<Byte>, j: nat, byteV: Byte, source: Digest)
    requires j > 0 && source == Source(h, view, j) && byteV == SourceByte(h, view, j)
    ensures Cached(h, view, j - 1, byteV, source)
  {
    hide LittleEndianBytes;
    StepDownPlaces(j);
  }

  method PutWindow(buf: array<Byte>, j: uint64)
    requires buf.Length == TOTAL_SIZE
    modifies buf
    ensures buf[..] == old(buf[..PIVOT_VIEW_SIZE]) + LittleEndianBytes((j / 256) as int, 4)
  {
    var bytes := Uint32Bytes((j / 256) as int);
    Uint32BytesIsLittleEndian((j / 256) as int);
    forall k | 0 <= k < 4 { buf[PIVOT_VIEW_SIZE + k] := bytes[k]; }
    assert buf[..PIVOT_VIEW_SIZE] == old(buf[..PIVOT_VIEW_SIZE]);
    assert buf[..] == buf[..PIVOT_VIEW_SIZE] + buf[PIVOT_VIEW_SIZE..];
  }

  /** One pair of the list. The caller's cache is for position j, unless j starts a new
      byte or a new hash, which is then fetched here. */
  method SwapOrNot(h: Hasher, buf: array<Byte>, byteV: Byte, i: uint64, input: array<uint64>, j: uint64, source: Digest)
    returns (byteV': Byte, source': Digest)
    requires buf.Length == TOTAL_SIZE && i < j && j as int < input.Length
    requires Cached(h, buf[..PIVOT_VIEW_SIZE], j as int, byteV, source)
    modifies buf, input
    ensures buf[..PIVOT_VIEW_SIZE] == old(buf[..PIVOT_VIEW_SIZE])
    ensures Cached(h, buf[..PIVOT_VIEW_SIZE], j as int - 1, byteV', source')
    ensures input[..] == if DigestBit(h, buf[..PIVOT_VIEW_SIZE], j as int)
                         then old(input[..])[i as int := old(input[j])][j as int := old(input[i])]
                         else old(input[..])
  {
    DigestBitDecides(h, buf[..PIVOT_VIEW_SIZE], j as int);
    hide DigestBit;
    byteV', source' := byteV, source;
    ghost var view := buf[..PIVOT_VIEW_SIZE];
    if j % 256 == 255 {
      PutWindow(buf, j);
      assert buf[..] == view + LittleEndianBytes((j / 256) as int, 4);
      source' := h(buf[..]);
    }
    if j % 8 == 7 {
      byteV' := source'[j % 256 / 8];
    }
    CacheCarriesOver(h, view, j as int, byteV', source');
    var bitV := byteV' / Pow2((j % 8) as int) % 2;
    if bitV == 1 {
      input[i], input[j] := input[j], input[i];
    }
  }

  /** Halfway through the stretch [first, last]: the pairs outside [i, j] are done. */
  ghost predicate Stretch<T>(h: Hasher, view: seq<Byte>, was: seq<T>, now: seq<T>, first: int, i: int, j: int,
      last: int)
  {
    && |now| == |was|
    && (forall x :: 0 <= x < |was| && (first <= x < i || j < x <= last) ==> now[x] == was[RoundOf(h, view, |was|, x)])
    && (forall x :: 0 <= x < |was| && !(first <= x < i || j < x <= last) ==> now[x] == was[x])
  }

  /** The two stretches of a round: up to the pivot, and after it. */
  predicate MirrorEnds(pivot: nat, n: nat, first: int, last: int) {
    (first == 0 && last == pivot) || (first == pivot + 1 && last == n - 1)
  }

  lemma EmptyStretch<T>(h: Hasher, view: seq<Byte>, was: seq<T>, first: int, last: int)
    ensures Stretch(h, view, was, was, first, first, last, last)
  {
  }

  lemma ExtendStretch<T>(h: Hasher, view: seq<Byte>, was: seq<T>, now: seq<T>, next: seq<T>, first: int, i: int,
      j: int, last: int)
    requires 0 <= first <= i < j <= last < |was| && i + j == first + last
    requires Stretch(h, view, was, now, first, i, j, last)
    requires MirrorEnds(Pivot(h, view, |was|), |was|, first, last)
    requires next == if SwapBit(h, view, j) then now[i := now[j]][j := now[i]] else now
    ensures Stretch(h, view, was, next, first, i + 1, j - 1, last)
  {
    hide Pivot, SwapBit, Flip;
    FlipCases(Pivot(h, view, |was|), |was|, i);
    FlipCases(Pivot(h, view, |was|), |was|, j);
    assert now[i] == was[i] && now[j] == was[j];
    forall x | 0 <= x < |was| && (first <= x < i + 1 || j - 1 < x <= last)
      ensures next[x] == was[RoundOf(h, view, |was|, x)]
    {
      if x != i && x != j {
        assert next[x] == now[x];
      }
    }
  }

  lemma CloseStretch<T>(h: Hasher, view: seq<Byte>, was: seq<T>, now: seq<T>, first: int, i: int, j: int, last: int)
    requires |was| > 0 && 0 <= first <= i <= j + 1 && j <= last < |was| && j <= i && i + j == first + last
    requires Stretch(h, view, was, now, first, i, j, last)
    requires MirrorEnds(Pivot(h, view, |was|), |was|, first, last)
    ensures Stretch(h, view, was, now, first, last + 1, last, last)
  {
    hide Pivot, SwapBit, Flip;
    if i == j {
      FlipCases(Pivot(h, view, |was|), |was|, i);
      assert RoundOf(h, view, |was|, i) == i;
    }
  }

  /** The pairs of one mirrored stretch [first, last], from its edges to the mirror point. */
  method SwapStretch(h: Hasher, buf: array<Byte>, input: array<uint64>, first: uint64, last: uint64, mirror: uint64)
    requires buf.Length == TOTAL_SIZE && last as int < input.Length <= MAX_LIST_SIZE
    requires first <= last + 1 && mirror == (first + last + 1) / 2
    requires MirrorEnds(Pivot(h, buf[..PIVOT_VIEW_SIZE], input.Length), input.Length, first as int, last as int)
    modifies buf, input
    ensures buf[..PIVOT_VIEW_SIZE] == old(buf[..PIVOT_VIEW_SIZE])
    ensures Stretch(h, buf[..PIVOT_VIEW_SIZE], old(input[..]), input[..],
              first as int, last as int + 1, last as int, last as int)
  {
    hide Stretch, SwapBit, Pivot, DigestBit;
    ghost var view := buf[..PIVOT_VIEW_SIZE];
    ghost var was := input[..];
    EmptyStretch(h, view, was, first as int, last as int);
    PutWindow(buf, last);
    assert buf[..PIVOT_VIEW_SIZE] == view;
    var source := h(buf[..]);
    var byteV := source[last % 256 / 8];
    var i, j := first, last;
    while i < mirror
      invariant first <= i <= mirror && i as int + j as int == first as int + last as int
      invariant buf[..PIVOT_VIEW_SIZE] == view
      invariant Cached(h, view, j as int, byteV, source)
      invariant Stretch(h, view, was, input[..], first as int, i as int, j as int, last as int)
    {
      ghost var now := input[..];
      DigestBitDecides(h, view, j as int);
      byteV, source := SwapOrNot(h, buf, byteV, i, input, j, source);
      ExtendStretch(h, view, was, now, input[..], first as int, i as int, j as int, last as int);
      i, j := i + 1, j - 1;
    }
    CloseStretch(h, view, was, input[..], first as int, i as int, j as int, last as int);
  }

  lemma TwoStretchesAreARound<T>(h: Hasher, seed: Digest, round: Byte, was: seq<T>, half: seq<T>, now: seq<T>)
    requires |was| > 0
    requires var pivot := Pivot(h, seed + [round], |was|);
             && Stretch(h, seed + [round], was, half, 0, pivot + 1, pivot, pivot)
             && Stretch(h, seed + [round], half, now, pivot + 1, |was|, |was| - 1, |was| - 1)
    ensures now == ListRound(h, seed, round, was)
  {
    hide Pivot, SwapBit, Flip;
    var pivot := Pivot(h, seed + [round], |was|);
    forall x | 0 <= x < |was|
      ensures now[x] == was[Round(h, seed, |was|, round, x)]
    {
      FlipCases(pivot, |was|, x);
      var y := RoundOf(h, seed + [round], |was|, x);
      if x > pivot {
        assert now[x] == half[y] == was[y];
      } else {
        assert now[x] == half[x] == was[y];
      }
    }
  }

  method ShuffleRoundInPlace(h: Hasher, buf: array<Byte>, input: array<uint64>, ghost seed: Digest, ghost round: Byte)
    requires buf.Length == TOTAL_SIZE && 1 < input.Length <= MAX_LIST_SIZE
    requires buf[..PIVOT_VIEW_SIZE] == seed + [round]
    modifies buf, input
    ensures buf[..PIVOT_VIEW_SIZE] == seed + [round]
    ensures input[..] == ListRound(h, seed, round, old(input[..]))
  {
    var listSize := input.Length as uint64;
    ghost var was := input[..];
    ghost var view := buf[..PIVOT_VIEW_SIZE];
    var ph := h(buf[..PIVOT_VIEW_SIZE]);
    var pivot := (LittleEndian(ph[..8]) % (listSize as int)) as uint64;
    SwapStretch(h, buf, input, 0, pivot, (pivot + 1) / 2);
    ghost var half := input[..];
    SwapStretch(h, buf, input, pivot + 1, listSize - 1, (pivot + listSize + 1) / 2);
    TwoStretchesAreARound(h, seed, round, was, half, input[..]);
  }

  lemma {:induction false} ShortListsAreFixed<T>(h: Hasher, seed: Digest, lo: nat, hi: nat, s: seq<T>)
    requires |s| <= 1 && lo <= hi <= 256
    ensures ListUp(h, seed, lo, hi, s) == s == ListDown(h, seed, lo, hi, s)
    decreases hi
  {
    hide Round;
    if lo < hi {
      assert ListRound(h, seed, hi - 1, s) == s;
      ShortListsAreFixed(h, seed, lo, hi - 1, s);
    }
  }

  method InnerShuffleList(h: Hasher, input: array<uint64>, seed: Digest, shuffle: bool)
    returns (r: Outcome<array<uint64>>)
    modifies input
    ensures input.Length > MAX_LIST_SIZE ==> r == SizeOutOfBounds && input[..] == old(input[..])
    ensures input.Length <= MAX_LIST_SIZE ==>
      && r == Success(input)
      && input[..] == if shuffle then Shuffled(h, seed, old(input[..])) else Unshuffled(h, seed, old(input[..]))
    ensures r.Success? ==>
              forall i, k | 0 <= i < input.Length && 0 <= k < input.Length && ShufflesTo(h, seed, input.Length, i, k) ::
                if shuffle then input[k] == old(input[i]) else input[i] == old(input[k])
  {
    hide ShufflesTo;
    AllEntriesFollow(h, seed, input[..]);
    ghost var was := input[..];
    if input.Length <= 1 {
      ShortListsAreFixed(h, seed, 0, ROUNDS, input[..]);
      return Success(input);
    }
    if input.Length > MAX_LIST_SIZE {
      return SizeOutOfBounds;
    }
    var rounds: uint8 := 90;
    var buf := new Byte[TOTAL_SIZE];
    var r8: uint8 := if shuffle then 0 else rounds - 1;
    forall k | 0 <= k < SEED_SIZE { buf[k] := seed[k]; }
    assert input[..] == was;
    while true
      invariant 0 <= r8 < rounds
      invariant buf[..SEED_SIZE] == seed
      invariant shuffle ==> input[..] == ListUp(h, seed, 0, r8 as int, was)
      invariant !shuffle ==> ListDown(h, seed, 0, r8 as int + 1, input[..]) == Unshuffled(h, seed, was)
      decreases if shuffle then rounds - r8 else r8
    {
      buf[SEED_SIZE] := r8 as int;
      assert buf[..PIVOT_VIEW_SIZE] == seed + [r8 as int];
      ShuffleRoundInPlace(h, buf, input, seed, r8 as int);
      assert buf[..SEED_SIZE] == buf[..PIVOT_VIEW_SIZE][..SEED_SIZE];
      if shuffle {
        r8 := r8 + 1;
        if r8 == rounds {
          assert input[..] == Shuffled(h, seed, was);
          break;
        }
      } else {
        if r8 == 0 {
          assert input[..] == Unshuffled(h, seed, was);
          break;
        }
        r8 := r8 - 1;
      }
    }
    assert input[..] == if shuffle then Shuffled(h, seed, was) else Unshuffled(h, seed, was);
    return Success(input);
  }
}
