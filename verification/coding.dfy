/** Binary/one-hot coding blocks of `nmigen/lib/coding.py` as functions from input values
    to output values. A signal of `width` bits is a `seq<bool>` of that length, least
    significant bit first; a `max=`-sized signal holding a number is a `nat`. */
module Coding {
  import opened Wrappers
  import opened Bits

  /** The unsigned value of a bit vector (bit `k` weighs `2^k`). */
  function ToNat(bits: seq<bool>): nat {
    if |bits| == 0 then 0 else (if bits[0] then 1 else 0) + 2 * ToNat(bits[1..])
  }

  ghost predicate AllClear(bits: seq<bool>) {
    forall k :: 0 <= k < |bits| ==> !bits[k]
  }

  /** Exactly bit `j` is asserted. */
  ghost predicate IsOneHotAt(bits: seq<bool>, j: nat) {
    j < |bits| && bits[j] && forall k :: 0 <= k < |bits| && k != j ==> !bits[k]
  }

  ghost predicate IsOneHot(bits: seq<bool>) {
    exists j: nat :: IsOneHotAt(bits, j)
  }

  lemma {:induction false} ZeroIffAllClear(bits: seq<bool>)
    ensures ToNat(bits) == 0 <==> AllClear(bits)
  {
    if |bits| > 0 {
      ZeroIffAllClear(bits[1..]);
      assert forall k :: 1 <= k < |bits| ==> bits[k] == bits[1..][k - 1];
    }
  }

  /** An input matches `Case(1 << j)` exactly when it is one-hot at `j`. */
  lemma {:induction false} OneHotValue(bits: seq<bool>, j: nat)
    requires j < |bits|
    ensures ToNat(bits) == Pow2(j) <==> IsOneHotAt(bits, j)
  {
    var rest := bits[1..];
    assert forall k :: 1 <= k < |bits| ==> bits[k] == rest[k - 1];
    ZeroIffAllClear(rest);
    if j > 0 {
      OneHotValue(rest, j - 1);
    }
  }

  /** `1 << j` as a `width`-bit vector. */
  function OneHot(width: nat, j: nat): (bits: seq<bool>)
    requires j < width
    ensures IsOneHotAt(bits, j) && |bits| == width
  {
    seq(width, k requires 0 <= k < width => k == j)
  }

  function Zeros(width: nat): (bits: seq<bool>)
    ensures |bits| == width && AllClear(bits)
  {
    seq(width, k requires 0 <= k < width => false)
  }

  datatype EncoderOut = EncoderOut(o: nat, n: bool)

  /** The `m.Switch(i)` of `Encoder`: the first `j` from `from` on whose `Case(1 << j)`
      matches the input value. */
  function FirstCase(value: nat, width: nat, from: nat): (r: Option<nat>)
    ensures r.Some? ==> from <= r.value < width && value == Pow2(r.value)
    ensures r.None? ==> forall j :: from <= j < width ==> value != Pow2(j)
    decreases width - from
  {
    if from >= width then None
    else if value == Pow2(from) then Some(from)
    else FirstCase(value, width, from + 1)
  }

  /** `Encoder`: a one-hot input gives its bit index with `n` low; anything else gives
      `o = 0` with `n` high. */
  function Encoder(i: seq<bool>): (r: EncoderOut)
    ensures forall j: nat :: IsOneHotAt(i, j) ==> r == EncoderOut(j, false)
    ensures !IsOneHot(i) ==> r == EncoderOut(0, true)
    ensures r.o < if |i| < 2 then 2 else |i|
  {
    match FirstCase(ToNat(i), |i|, 0)
    case Some(j) =>
      OneHotValue(i, j);
      assert forall j': nat :: IsOneHotAt(i, j') ==> j' == j;
      EncoderOut(j, false)
    case None =>
      assert !IsOneHot(i) by {
        forall j: nat | j < |i|
          ensures !IsOneHotAt(i, j)
        {
          OneHotValue(i, j);
        }
      }
      EncoderOut(0, true)
  }

  /** The statements of `PriorityEncoder` after the first `j`: statement `j` looks at bit
      `|i| - 1 - j` (the bits are visited most significant first) and, if it is set,
      overrides `o`. The last assignment wins. */
  function PriorityScan(i: seq<bool>, j: nat, o: nat): nat
    requires j <= |i|
    decreases |i| - j
  {
    if j == |i| then o
    else PriorityScan(i, j + 1, if i[|i| - 1 - j] then |i| - 1 - j else o)
  }

  /** After visiting every bit at or above `|i| - j`, `o` is the lowest set bit among them
      (or the initial 0 if none is set); the rest of the scan then finishes the job. */
  lemma {:induction false} PriorityScanLowest(i: seq<bool>, j: nat, o: nat)
    requires j <= |i|
    requires (exists k :: |i| - j <= k < |i| && i[k]) ==>
      |i| - j <= o < |i| && i[o] && forall k :: |i| - j <= k < o ==> !i[k]
    requires (forall k :: |i| - j <= k < |i| ==> !i[k]) ==> o == 0
    ensures var r := PriorityScan(i, j, o);
      && ((exists k :: 0 <= k < |i| && i[k]) ==> r < |i| && i[r] && forall k :: 0 <= k < r ==> !i[k])
      && ((forall k :: 0 <= k < |i| ==> !i[k]) ==> r == 0)
    decreases |i| - j
  {
    if j < |i| {
      var b := |i| - 1 - j;
      PriorityScanLowest(i, j + 1, if i[b] then b else o);
    }
  }

  /** `PriorityEncoder`: `n` is high exactly when no bit is set; otherwise `o` is the least
      significant set bit. */
  function PriorityEncoder(i: seq<bool>): (r: EncoderOut)
    ensures r.n <==> AllClear(i)
    ensures !r.n ==> r.o < |i| && i[r.o] && forall k :: 0 <= k < r.o ==> !i[k]
    ensures r.n ==> r.o == 0
  {
    PriorityScanLowest(i, 0, 0);
    ZeroIffAllClear(i);
    EncoderOut(PriorityScan(i, 0, 0), ToNat(i) == 0)
  }

  /** On one-hot inputs the priority encoder and the plain encoder agree. */
  lemma PriorityAgreesOnOneHot(i: seq<bool>, j: nat)
    requires IsOneHotAt(i, j)
    ensures PriorityEncoder(i) == Encoder(i) == EncoderOut(j, false)
  {
  }

  /** `Decoder` (and `PriorityDecoder`, which is the same class): with `n` low, input `i`
      below `width` asserts only bit `i`; an `i` no `Case` matches, or `n` high, gives 0. */
  function Decoder(i: nat, n: bool, width: nat): (o: seq<bool>)
    ensures |o| == width
    ensures !n && i < width ==> IsOneHotAt(o, i) && ToNat(o) == Pow2(i)
    ensures n || i >= width ==> AllClear(o) && ToNat(o) == 0
  {
    var switched := if i < width then OneHot(width, i) else Zeros(width);
    var o := if n then Zeros(width) else switched;
    if !n && i < width then
      OneHotValue(o, i);
      o
    else
      ZeroIffAllClear(o);
      o
  }

  /** Decoding a valid index and encoding the result gives the index back. */
  lemma DecodeEncodeRoundTrip(i: nat, width: nat)
    requires i < width
    ensures Encoder(Decoder(i, false, width)) == EncoderOut(i, false)
  {
  }

  /** Encoding a one-hot input and decoding the index gives the input back. */
  lemma EncodeDecodeRoundTrip(bits: seq<bool>, j: nat)
    requires IsOneHotAt(bits, j)
    ensures Decoder(Encoder(bits).o, Encoder(bits).n, |bits|) == bits
  {
    var d := Decoder(j, false, |bits|);
    assert forall k :: 0 <= k < |bits| ==> d[k] == bits[k];
  }
}
