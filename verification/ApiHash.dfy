/** The rolling 64-bit cache hash of `api_hash.h`: what it detects and what it cannot. */
module ApiHash {

  // ----- Xor and shift, kept apart from bit-level reasoning -----

  function Xor(a: bv64, b: bv64): bv64 { a ^ b }

  function Right(a: bv64, k: bv64): bv64
    requires k <= 64
  {
    a >> k
  }

  /** `already ^= (already >> k)` */
  function XorRight(a: bv64, k: bv64): bv64
    requires k <= 64
  {
    Xor(a, Right(a, k))
  }

  /** `already ^= (already << 35)` */
  function XorLeft35(a: bv64): bv64 { Xor(a, a << 35) }

  lemma XorCancel(a: bv64, b: bv64, c: bv64)
    ensures Xor(Xor(a, b), Xor(b, c)) == Xor(a, c)
  {}

  lemma ShiftTwice(a: bv64, b: bv64, k: bv64)
    requires k == 4 || k == 8 || k == 16 || k == 21 || k == 32 || k == 42
    ensures Right(Xor(a, b), k) == Xor(Right(a, k), Right(b, k))
    ensures Right(Right(a, k), k) == if k < 32 then Right(a, k + k) else 0
  {
    if k == 4 { Shift4(a, b); }
    else if k == 8 { Shift8(a, b); }
    else if k == 16 { Shift16(a, b); }
    else if k == 21 { Shift21(a, b); }
    else if k == 32 { Shift32(a, b); }
    else { Shift42(a, b); }
  }

  lemma Shift4(a: bv64, b: bv64)
    ensures Right(Xor(a, b), 4) == Xor(Right(a, 4), Right(b, 4)) && Right(Right(a, 4), 4) == Right(a, 8)
  {}
  lemma Shift8(a: bv64, b: bv64)
    ensures Right(Xor(a, b), 8) == Xor(Right(a, 8), Right(b, 8)) && Right(Right(a, 8), 8) == Right(a, 16)
  {}
  lemma Shift16(a: bv64, b: bv64)
    ensures Right(Xor(a, b), 16) == Xor(Right(a, 16), Right(b, 16)) && Right(Right(a, 16), 16) == Right(a, 32)
  {}
  lemma Shift21(a: bv64, b: bv64)
    ensures Right(Xor(a, b), 21) == Xor(Right(a, 21), Right(b, 21)) && Right(Right(a, 21), 21) == Right(a, 42)
  {}
  lemma Shift32(a: bv64, b: bv64)
    ensures Right(Xor(a, b), 32) == Xor(Right(a, 32), Right(b, 32)) && Right(Right(a, 32), 32) == 0
  {}
  lemma Shift42(a: bv64, b: bv64)
    ensures Right(Xor(a, b), 42) == Xor(Right(a, 42), Right(b, 42)) && Right(Right(a, 42), 42) == 0
  {}

  lemma XorZero(a: bv64)
    ensures Xor(a, 0) == a
  {}

  /** Applying one right xorshift twice is the xorshift by twice the distance. */
  lemma XorRightTwice(a: bv64, k: bv64)
    requires k == 4 || k == 8 || k == 16 || k == 21 || k == 32 || k == 42
    ensures XorRight(XorRight(a, k), k) == if k < 32 then XorRight(a, k + k) else a
  {
    hide Xor, Right;
    XorCancel(a, Right(a, k), Right(Right(a, k), k));
    ShiftTwice(a, Right(a, k), k);
    XorZero(a);
  }

  lemma XorLeftTwice(a: bv64)
    ensures XorLeft35(XorLeft35(a)) == a
  {}

  // ----- The step is a bijection of the state -----

  /** The three xorshift lines of `HashUpdate`. */
  function Mix(already: bv64): bv64 {
    XorRight(XorLeft35(XorRight(already, 21)), 4)
  }

  /** The state that `Mix` sends to `mixed`: each xorshift is undone by doubling its distance. */
  function Unmix(mixed: bv64): bv64 {
    var b := XorRight(XorRight(XorRight(XorRight(mixed, 4), 8), 16), 32);
    XorRight(XorRight(XorLeft35(b), 21), 42)
  }

  lemma UnmixMix(s: bv64)
    ensures Unmix(Mix(s)) == s
  {
    hide XorRight, XorLeft35;
    var a := XorRight(s, 21);
    var b := XorLeft35(a);
    XorRightTwice(b, 4);
    XorRightTwice(b, 8);
    XorRightTwice(b, 16);
    XorRightTwice(b, 32);
    XorLeftTwice(a);
    XorRightTwice(s, 21);
    XorRightTwice(s, 42);
  }

  lemma MixUnmix(m: bv64)
    ensures Mix(Unmix(m)) == m
  {
    hide XorRight, XorLeft35;
    // The doublings in the opposite order give a state that mixes to `m` ...
    var m32 := XorRight(m, 32);
    var m16 := XorRight(m32, 16);
    var m8 := XorRight(m16, 8);
    var b := XorRight(m8, 4);
    XorRightTwice(m8, 4);
    XorRightTwice(m16, 8);
    XorRightTwice(m32, 16);
    XorRightTwice(m, 32);
    var a := XorLeft35(b);
    XorLeftTwice(b);
    var s := XorRight(XorRight(a, 42), 21);
    XorRightTwice(XorRight(a, 42), 21);
    XorRightTwice(a, 42);
    // ... and `Unmix` finds every state from its mixture.
    UnmixMix(s);
  }

  // ----- One update and its two inverses -----

  function Add(a: bv64, b: bv64): bv64 { a + b }

  function Subtract(a: bv64, b: bv64): bv64 { a - b }

  lemma AddSubtract(a: bv64, b: bv64)
    ensures Subtract(Add(a, b), b) == a && Subtract(Add(a, b), a) == b
  {}

  lemma SubtractAdd(a: bv64, b: bv64)
    ensures Add(Subtract(a, b), b) == a && Add(b, Subtract(a, b)) == a
  {}

  /** What `HashUpdate` leaves in its reference argument. */
  function Update(already: bv64, value: bv64): bv64 { Add(Mix(already), value) }

  /** The state before an update by `value` that gave `hash`. */
  function Rewind(hash: bv64, value: bv64): bv64 { Unmix(Subtract(hash, value)) }

  /** The value with which `already` is updated to `hash`. */
  function ValueBetween(already: bv64, hash: bv64): bv64 { Subtract(hash, Mix(already)) }

  /** For each value the update is a bijection of the state, with `Rewind` as its inverse. */
  lemma UpdateIsBijectiveInState(s: bv64, t: bv64, value: bv64)
    ensures Rewind(Update(s, value), value) == s
    ensures Update(Rewind(s, value), value) == s
    ensures Update(s, value) == Update(t, value) <==> s == t
  {
    hide Mix, Unmix, Add, Subtract;
    UnmixMix(s);
    UnmixMix(t);
    MixUnmix(Subtract(s, value));
    AddSubtract(Mix(s), value);
    AddSubtract(Mix(t), value);
    SubtractAdd(s, value);
  }

  /** For each state it is a bijection of the value: every result has exactly one value that gives it. */
  lemma UpdateIsBijectiveInValue(s: bv64, value: bv64, hash: bv64)
    ensures Update(s, value) == hash <==> value == ValueBetween(s, hash)
  {
    hide Mix, Add, Subtract;
    AddSubtract(Mix(s), value);
    SubtractAdd(hash, Mix(s));
  }

  /** `HashUpdate(uint64 &already, uint64 value)`, line by line. */
  method HashUpdate(already: bv64, value: bv64) returns (updated: bv64)
    ensures updated == Update(already, value)
  {
    hide XorRight, XorLeft35, Add;
    updated := already;
    updated := XorRight(updated, 21);
    updated := XorLeft35(updated);
    updated := XorRight(updated, 4);
    updated := Add(updated, value);
  }

  // ----- The fold over a range -----

  function Fold(already: bv64, values: seq<bv64>): bv64
    decreases |values|
  {
    if values == [] then already else Fold(Update(already, values[0]), values[1..])
  }

  function Hash(values: seq<bv64>): bv64 { Fold(0, values) }

  lemma FoldConcat(already: bv64, p: seq<bv64>, q: seq<bv64>)
    ensures Fold(already, p + q) == Fold(Fold(already, p), q)
    decreases |p|
  {
    hide Update;
    if p == [] {
      assert p + q == q;
    } else {
      assert (p + q)[1..] == p[1..] + q;
      FoldConcat(Update(already, p[0]), p[1..], q);
    }
  }

  /** `CountHash`: init, one update for each value of the range, finalize. */
  method CountHash(range: seq<bv64>) returns (result: bv64)
    ensures result == Hash(range)
  {
    result := 0;
    for i := 0 to |range|
      invariant result == Hash(range[..i])
    {
      assert range[..i + 1] == range[..i] + [range[i]];
      FoldConcat(0, range[..i], [range[i]]);
      result := HashUpdate(result, range[i]);
    }
    assert range[..|range|] == range;
  }

  /** A common tail neither hides nor invents a difference between two states. */
  lemma {:induction false} FoldIsInjectiveInState(s: bv64, t: bv64, tail: seq<bv64>)
    ensures Fold(s, tail) == Fold(t, tail) <==> s == t
    decreases |tail|
  {
    hide Update;
    if tail != [] {
      UpdateIsBijectiveInState(s, t, tail[0]);
      FoldIsInjectiveInState(Update(s, tail[0]), Update(t, tail[0]), tail[1..]);
    }
  }

  /** Two ranges with a common tail collide exactly when what precedes the tail collides. */
  lemma CommonTail(p: seq<bv64>, q: seq<bv64>, tail: seq<bv64>)
    ensures Hash(p + tail) == Hash(q + tail) <==> Hash(p) == Hash(q)
  {
    hide Update;
    FoldConcat(0, p, tail);
    FoldConcat(0, q, tail);
    FoldIsInjectiveInState(Hash(p), Hash(q), tail);
  }

  /** Changing exactly one value, at any position of a range of any length, always changes the hash. */
  lemma OneChangeIsDetected(a: seq<bv64>, b: seq<bv64>, at: nat)
    requires |a| == |b| && at < |a|
    requires forall i | 0 <= i < |a| && i != at :: a[i] == b[i]
    ensures Hash(a) == Hash(b) <==> a[at] == b[at]
  {
    hide Update, ValueBetween;
    var p, tail := a[..at], a[at + 1..];
    assert b[..at] == p && b[at + 1..] == tail;
    assert a == (p + [a[at]]) + tail && b == (p + [b[at]]) + tail;
    CommonTail(p + [a[at]], p + [b[at]], tail);
    FoldConcat(0, p, [a[at]]);
    FoldConcat(0, p, [b[at]]);
    UpdateIsBijectiveInValue(Hash(p), a[at], Update(Hash(p), b[at]));
    UpdateIsBijectiveInValue(Hash(p), b[at], Update(Hash(p), b[at]));
  }

  /** The state from which `tail` leads to `hash`. */
  function RewindAll(hash: bv64, tail: seq<bv64>): bv64
    decreases |tail|
  {
    if tail == [] then hash else Rewind(RewindAll(hash, tail[1..]), tail[0])
  }

  lemma {:induction false} RewindAllReaches(hash: bv64, tail: seq<bv64>)
    ensures Fold(RewindAll(hash, tail), tail) == hash
    decreases |tail|
  {
    hide Update, Rewind;
    if tail != [] {
      RewindAllReaches(hash, tail[1..]);
      var after := RewindAll(hash, tail[1..]);
      UpdateIsBijectiveInState(after, after, tail[0]);
    }
  }

  /** The other values and the hash determine the missing value: it exists and it is the only one. */
  lemma MissingValueIsDetermined(p: seq<bv64>, tail: seq<bv64>, hash: bv64, value: bv64)
    ensures Hash(p + [value] + tail) == hash <==> value == ValueBetween(Hash(p), RewindAll(hash, tail))
  {
    hide Update, Rewind, ValueBetween;
    var before := RewindAll(hash, tail);
    RewindAllReaches(hash, tail);
    FoldConcat(0, p + [value], tail);
    FoldConcat(0, p, [value]);
    FoldIsInjectiveInState(Hash(p + [value]), before, tail);
    UpdateIsBijectiveInValue(Hash(p), value, before);
  }

  /** The guarantee stops at one change: a second value can always be chosen to cancel the first. */
  lemma TwoChangesCanCancel(p: seq<bv64>, x: bv64, y: bv64, x': bv64) returns (y': bv64)
    ensures Hash(p + [x, y]) == Hash(p + [x', y'])
    ensures x != x' ==> y != y'
  {
    hide Update, Rewind, ValueBetween;
    y' := ValueBetween(Hash(p + [x']), Hash(p + [x, y]));
    assert p + [x', y'] == (p + [x']) + [y'] + [] && p + [x, y] == (p + [x]) + [y];
    MissingValueIsDetermined(p + [x'], [], Hash(p + [x, y]), y');
    if x != x' && y == y' {
      OneChangeIsDetected(p + [x, y], p + [x', y'], |p|);
    }
  }

  /** Nor does it reach ranges of different lengths: a leading zero leaves the hash unchanged. */
  lemma LeadingZeroIsInvisible(values: seq<bv64>)
    ensures Hash([0] + values) == Hash(values)
  {
    ZeroIsFixed();
    hide Update;
    FoldConcat(0, [0], values);
  }

  lemma ZeroIsFixed()
    ensures Update(0, 0) == 0
  {}

  // ----- The narrower overloads -----

  /** `uint64(value)` of a `uint32`. */
  function WidenUnsigned(value: bv32): bv64 { value as bv64 }

  /** `uint64(int64(value))` of an `int32`: the sign bit fills the upper half. */
  function WidenSigned(value: bv32): bv64 {
    if value >= 0x8000_0000 then 0xFFFF_FFFF_0000_0000 | (value as bv64) else value as bv64
  }

  lemma WideningIsInjective(x: bv32, y: bv32)
    ensures WidenUnsigned(x) == WidenUnsigned(y) <==> x == y
    ensures WidenSigned(x) == WidenSigned(y) <==> x == y
  {}

  function Widened(range: seq<bv32>, signed: bool): (wide: seq<bv64>)
    ensures |wide| == |range|
    ensures forall i | 0 <= i < |range| ::
              wide[i] == if signed then WidenSigned(range[i]) else WidenUnsigned(range[i])
  {
    seq(|range|, i requires 0 <= i < |range| => if signed then WidenSigned(range[i]) else WidenUnsigned(range[i]))
  }

  /** A conversion keeps the number: an unsigned value and one without a sign as they are, a negative one modulo 2^64. */
  lemma WideningIs(value: bv32)
    ensures WidenUnsigned(value) == value as bv64
    ensures value < 0x8000_0000 ==> WidenSigned(value) == value as bv64
    ensures value >= 0x8000_0000 ==> WidenSigned(value) + (0x1_0000_0000 - value as bv64) == 0
  {}

  /** Hashes of single values and of short ranges, worked out by hand: each of the three shifts shows in one of them. */
  lemma KnownHashes()
    ensures Hash([]) == 0 && Hash([7]) == 7
    ensures Hash([1, 0]) == 0x0000_0008_8000_0001
    ensures Hash([0x20_0000, 0]) == 0x0110_0008_8022_0001
    ensures Hash([0x10, 5]) == 0x0000_0088_0000_0016
  {
    KnownUpdates();
    assert [1, 0][1..] == [0] && [0x20_0000, 0][1..] == [0] && [0x10, 5][1..] == [5];
    hide Update;
  }

  lemma KnownUpdates()
    ensures Update(0, 7) == 7 && Update(0, 1) == 1 && Update(0, 0x20_0000) == 0x20_0000 && Update(0, 0x10) == 0x10
    ensures Update(1, 0) == 0x0000_0008_8000_0001
    ensures Update(0x20_0000, 0) == 0x0110_0008_8022_0001
    ensures Update(0x10, 5) == 0x0000_0088_0000_0016
  {}

  /** The guarantee survives the conversion of 32-bit ranges. */
  lemma OneNarrowChangeIsDetected(a: seq<bv32>, b: seq<bv32>, at: nat, signed: bool)
    requires |a| == |b| && at < |a|
    requires forall i | 0 <= i < |a| && i != at :: a[i] == b[i]
    ensures Hash(Widened(a, signed)) == Hash(Widened(b, signed)) <==> a[at] == b[at]
  {
    hide WidenSigned, WidenUnsigned, Hash;
    WideningIsInjective(a[at], b[at]);
    OneChangeIsDetected(Widened(a, signed), Widened(b, signed), at);
  }
}
