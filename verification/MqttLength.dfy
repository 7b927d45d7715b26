/**
  The variable-length "remaining length" of MQTT 3.1.1, section 2.2.3
  (hil/controller/src/MqttClient.cpp: appendRemainingLen, readRemainingLength).
 */
module MqttLength {
  import opened Words

  const WORD := 0x1_0000_0000

  /** Seven bits a byte, least significant first; the high bit says that more follow. */
  function EncodeLen(n: nat): (e: seq<byte>)
    ensures |e| >= 1
  {
    if n < 128 then [n] else [128 + n % 128] + EncodeLen(n / 128)
  }

  /** `appendRemainingLen`. */
  method AppendRemainingLen(v: seq<byte>, n: uint32) returns (r: seq<byte>)
    ensures r == v + EncodeLen(n)
  {
    r := v;
    var len: uint32 := n;
    var more := true;
    while more
      invariant more ==> r + EncodeLen(len) == v + EncodeLen(n)
      invariant !more ==> r == v + EncodeLen(n)
      decreases more, len
    {
      ghost var before, written := EncodeLen(len), r;
      var b: byte := len % 128;
      len := len / 128;
      if len > 0 { b := b + 128; }
      r := r + [b];
      more := len > 0;
      assert before == if more then [b] + EncodeLen(len) else [b];
      assert more ==> written + before == r + EncodeLen(len);
    }
  }

  /** A result of reading: the value and the number of bytes consumed. */
  datatype Length = Length(value: uint32, consumed: nat)

  /** `val += (b & 0x7F) * mul` in 32 bits. */
  function Accumulate(val: uint32, b: byte, mul: uint32): uint32 {
    (val + b % 128 * mul) % WORD
  }

  /** `mul <<= 7` in 32 bits. */
  function Shift7(mul: uint32): uint32 {
    mul * 128 % WORD
  }

  /**
    `readRemainingLength` on the bytes still to come, in 32-bit arithmetic that wraps; a
    stream that ends inside the length yields 0.
   */
  function ReadLen(s: seq<byte>, val: uint32, mul: uint32): (l: Length)
    ensures l.consumed <= |s|
  {
    if s == [] then Length(0, 0)
    else
      var v := Accumulate(val, s[0], mul);
      if s[0] >= 128 then
        var l := ReadLen(s[1..], v, Shift7(mul));
        Length(l.value, l.consumed + 1)
      else
        Length(v, 1)
  }

  /** A product of natural numbers, named so that proofs can treat it as a unit. */
  function Times(a: nat, b: nat): nat {
    a * b
  }

  lemma {:induction false} ReadEncoded(n: nat, rest: seq<byte>, val: uint32, mul: uint32)
    requires mul >= 1 && val + Times(n, mul) < WORD
    ensures ReadLen(EncodeLen(n) + rest, val, mul) == Length(val + Times(n, mul), |EncodeLen(n)|)
    decreases n
  {
    hide Accumulate, Shift7, Times;
    var s := EncodeLen(n) + rest;
    if n < 128 {
      Digit(val, n, mul);
    } else {
      assert s[0] == 128 + n % 128 && s[1..] == EncodeLen(n / 128) + rest;
      hide ReadLen, EncodeLen;
      ReadOne(s, val, mul);
      SplitProduct(n, mul, val);
      Digit(val, s[0], mul);
      ReadEncoded(n / 128, rest, Accumulate(val, s[0], mul), Shift7(mul));
    }
  }

  lemma ReadOne(s: seq<byte>, val: uint32, mul: uint32)
    requires |s| > 0 && s[0] >= 128
    ensures var l := ReadLen(s[1..], Accumulate(val, s[0], mul), Shift7(mul));
            ReadLen(s, val, mul) == Length(l.value, l.consumed + 1)
  {
  }

  lemma Digit(val: uint32, b: byte, mul: uint32)
    requires val + Times(b % 128, mul) < WORD
    ensures Accumulate(val, b, mul) == val + Times(b % 128, mul)
  {
    MulMono(0, b % 128, mul);
  }

  lemma SplitProduct(n: nat, mul: nat, val: nat)
    requires n >= 128 && mul >= 1 && val + Times(n, mul) < WORD
    ensures mul * 128 < WORD && Shift7(mul) == 128 * mul
    ensures Times(n, mul) == Times(n % 128, mul) + Times(n / 128, Shift7(mul))
    ensures val + Times(n % 128, mul) < WORD
  {
    Distribute(n / 128, n % 128, mul);
    MulMono(1, n / 128, 128 * mul);
    MulMono(0, n % 128, mul);
  }

  lemma Distribute(q: nat, r: nat, mul: nat)
    ensures (128 * q + r) * mul == r * mul + q * (128 * mul)
  {
  }

  lemma MulMono(a: nat, b: nat, m: nat)
    requires a <= b
    ensures a * m <= b * m
  {
  }

  /** Decoding undoes encoding for every 32-bit length and consumes exactly the encoding. */
  lemma LengthRoundTrip(n: uint32, rest: seq<byte>)
    ensures ReadLen(EncodeLen(n) + rest, 0, 1) == Length(n, |EncodeLen(n)|)
  {
    ReadEncoded(n, rest, 0, 1);
  }

  /** A stream that ends inside the length field is consumed and read as length 0. */
  lemma {:induction false} ReadTruncated(n: nat, j: nat, val: uint32, mul: uint32)
    requires j < |EncodeLen(n)|
    ensures ReadLen(EncodeLen(n)[..j], val, mul) == Length(0, j)
    decreases n
  {
    hide Accumulate, Shift7;
    if j > 0 {
      var s := EncodeLen(n)[..j];
      assert s[0] == 128 + n % 128 && s[1..] == EncodeLen(n / 128)[..j - 1];
      ReadOne(s, val, mul);
      ReadTruncated(n / 128, j - 1, Accumulate(val, s[0], mul), Shift7(mul));
    }
  }

  /** What bytes stand for by section 2.2.3 of MQTT 3.1.1: seven bits each, the first the least significant. */
  function Value(e: seq<byte>): nat {
    if e == [] then 0 else e[0] % 128 + 128 * Value(e[1..])
  }

  /** The encoding stands for its number, and only its last byte has the high bit clear. */
  lemma {:induction false} EncodingMeaning(n: nat)
    ensures Value(EncodeLen(n)) == n && Complete(EncodeLen(n))
    decreases n
  {
    if n < 128 {
      assert Value([n]) == n % 128 + 128 * Value([]);
    } else {
      var e, tail := EncodeLen(n), EncodeLen(n / 128);
      EncodingMeaning(n / 128);
      assert e == [128 + n % 128] + tail && e[1..] == tail;
      assert forall i :: 1 <= i < |e| ==> e[i] == tail[i - 1];
    }
  }

  function Pow128(k: nat): (p: nat)
    ensures p >= 1
  {
    if k == 0 then 1 else 128 * Pow128(k - 1)
  }

  /** The encoding has at most `k` bytes exactly if the length is below `128^k`. */
  lemma {:induction false} EncodedSize(n: nat, k: nat)
    requires k >= 1
    ensures |EncodeLen(n)| <= k <==> n < Pow128(k)
    decreases k
  {
    if k == 1 {
      assert Pow128(1) == 128 * Pow128(0);
    } else if n < 128 {
      assert Pow128(k) == 128 * Pow128(k - 1);
    } else {
      EncodedSize(n / 128, k - 1);
      assert n / 128 < Pow128(k - 1) <==> n < 128 * Pow128(k - 1);
    }
  }

  /** The four bytes that the standard allows suffice exactly up to 268 435 455; five always do. */
  lemma StandardLimit(n: nat)
    ensures |EncodeLen(n)| <= 4 <==> n <= 268435455
    ensures n < WORD ==> |EncodeLen(n)| <= 5
  {
    EncodedSize(n, 4);
    EncodedSize(n, 5);
    assert Pow128(1) == 128 && Pow128(2) == 16384 && Pow128(3) == 2097152;
    assert Pow128(4) == 268435456 && Pow128(5) == 34359738368;
  }

  /** A string that the decoder consumes entirely: continuation bits on all bytes but the last. */
  predicate Complete(d: seq<byte>) {
    && |d| > 0 && d[|d| - 1] < 128
    && forall i :: 0 <= i < |d| - 1 ==> d[i] >= 128
  }

  lemma {:induction false} ReadBelow(d: seq<byte>, rest: seq<byte>, val: uint32, j: nat)
    requires Complete(d) && j + |d| <= 4 && val < Pow128(j)
    ensures Pow128(j) < WORD && ReadLen(d + rest, val, Pow128(j)).value < Pow128(j + |d|)
    decreases |d|
  {
    hide Accumulate, Shift7;
    PowBelow(j);
    PowBelow(j + 1);
    var s := d + rest;
    var mul := Pow128(j);
    DigitBelow(val, d[0], mul);
    if |d| > 1 {
      assert s[1..] == d[1..] + rest;
      ReadBelow(d[1..], rest, Accumulate(val, d[0], mul), j + 1);
    }
  }

  lemma DigitBelow(val: uint32, b: byte, mul: uint32)
    requires val < mul && 128 * mul < WORD
    ensures Accumulate(val, b, mul) < 128 * mul && Shift7(mul) == 128 * mul
  {
    MulMono(0, b % 128, mul);
    MulMono(b % 128, 127, mul);
  }

  lemma PowBelow(j: nat)
    requires j <= 4
    ensures Pow128(j) <= 268435456
  {
    assert Pow128(0) == 1 && Pow128(1) == 128 && Pow128(2) == 16384 && Pow128(3) == 2097152;
    assert Pow128(4) == 268435456;
  }

  /** No string of bytes that decodes to `n` is shorter than the encoding of `n`. */
  lemma EncodingIsMinimal(d: seq<byte>, rest: seq<byte>)
    requires Complete(d)
    ensures |EncodeLen(ReadLen(d + rest, 0, 1).value)| <= |d|
  {
    var n := ReadLen(d + rest, 0, 1).value;
    if |d| <= 4 {
      assert Pow128(0) == 1;
      ReadBelow(d, rest, 0, 0);
      EncodedSize(n, |d|);
    } else {
      StandardLimit(n);
    }
  }
}
