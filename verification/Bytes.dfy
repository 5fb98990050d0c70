/** Bytes, big-endian integers and base16 text, shared by the other modules.

    A note on predicates of the form `var p := A && B && C; p`, here and in the other modules: with a
    name for the whole, a call that requires the predicate proves it from the predicate itself,
    instead of proving `A`, `B` and `C` one by one from their definitions. */
module Bytes {

  type Byte = b: int | 0 <= b < 256

  datatype Option<+T> = None | Some(value: T) {
    predicate IsFailure() { None? }

    function PropagateFailure<U>(): Option<U>
      requires None?
    {
      None
    }

    function Extract(): T
      requires Some?
    {
      value
    }
  }

  ghost predicate Distinct<T>(s: seq<T>) {
    forall i, j :: 0 <= i < j < |s| ==> s[i] != s[j]
  }

  /** `256^n`, the number of values an `n`-byte integer takes. */
  function Pow256(n: nat): (p: nat)
    ensures p > 0
  {
    if n == 0 then 1 else 256 * Pow256(n - 1)
  }

  /** The `width`-byte big-endian form of `x`, most significant byte first. */
  function BigEndian(x: nat, width: nat): (bs: seq<Byte>)
    ensures |bs| == width
  {
    if width == 0 then [] else BigEndian(x / 256, width - 1) + [x % 256]
  }

  /** The number a big-endian byte string denotes. */
  function FromBigEndian(bs: seq<Byte>): (x: nat)
  {
    if bs == [] then 0 else 256 * FromBigEndian(bs[..|bs| - 1]) + bs[|bs| - 1]
  }

  lemma {:induction false} BigEndianRoundTrip(x: nat, width: nat)
    requires x < Pow256(width)
    ensures FromBigEndian(BigEndian(x, width)) == x
  {
    if width > 0 {
      BigEndianRoundTrip(x / 256, width - 1);
      assert BigEndian(x, width)[..width - 1] == BigEndian(x / 256, width - 1);
    }
  }

  /** The number at a position of a byte string. */
  function NumberAt(bs: seq<Byte>, from: nat, to: nat): nat
    requires from <= to <= |bs|
  {
    FromBigEndian(bs[from..to])
  }

  /** A number written between other bytes is found there. */
  lemma {:induction false} Placed(front: seq<Byte>, x: nat, width: nat, back: seq<Byte>)
    requires x < Pow256(width)
    ensures NumberAt(front + BigEndian(x, width) + back, |front|, |front| + width) == x
  {
    BigEndianRoundTrip(x, width);
    assert (front + BigEndian(x, width) + back)[|front|..|front| + width] == BigEndian(x, width);
  }

  lemma {:induction false} OneByte(b: Byte)
    ensures BigEndian(b, 1) == [b]
  {
    assert BigEndian(b / 256, 0) == [];
  }

  lemma {:induction false} FromBigEndianRoundTrip(bs: seq<Byte>)
    ensures FromBigEndian(bs) < Pow256(|bs|)
    ensures BigEndian(FromBigEndian(bs), |bs|) == bs
  {
    if bs != [] {
      FromBigEndianRoundTrip(bs[..|bs| - 1]);
      assert bs == bs[..|bs| - 1] + [bs[|bs| - 1]];
    }
  }

  /** Distinct integers of the same width have distinct big-endian forms. */
  lemma {:induction false} BigEndianInjective(x: nat, y: nat, width: nat)
    requires x < Pow256(width) && y < Pow256(width)
    requires BigEndian(x, width) == BigEndian(y, width)
    ensures x == y
  {
    BigEndianRoundTrip(x, width);
    BigEndianRoundTrip(y, width);
  }
}

/** Base16 text: the encoder writes lower case, the decoder accepts either case. */
module Base16 {
  import opened Bytes

  const DIGITS := "0123456789abcdef"

  function DigitValue(c: char): (v: Option<int>)
    ensures v.Some? ==> 0 <= v.value < 16
  {
    if '0' <= c <= '9' then Some(c as int - '0' as int)
    else if 'a' <= c <= 'f' then Some(c as int - 'a' as int + 10)
    else if 'A' <= c <= 'F' then Some(c as int - 'A' as int + 10)
    else None
  }

  function Encode(bs: seq<Byte>): (s: string)
    ensures |s| == 2 * |bs|
  {
    if bs == [] then "" else [DIGITS[bs[0] / 16], DIGITS[bs[0] % 16]] + Encode(bs[1..])
  }

  function Decode(s: string): (r: Option<seq<Byte>>)
    ensures r.Some? ==> |s| == 2 * |r.value|
  {
    if s == "" then Some([])
    else if |s| == 1 then None
    else
      match (DigitValue(s[0]), DigitValue(s[1]), Decode(s[2..]))
      case (Some(hi), Some(lo), Some(rest)) => Some([16 * hi + lo] + rest)
      case _ => None
  }

  lemma {:induction false} DecodeEncode(bs: seq<Byte>)
    ensures Decode(Encode(bs)) == Some(bs)
    ensures SafeKey(Encode(bs)) <==> |bs| < 100
  {
    RoundTrip(bs);
  }

  lemma {:induction false} RoundTrip(bs: seq<Byte>)
    ensures Decode(Encode(bs)) == Some(bs)
  {
    if bs != [] {
      RoundTrip(bs[1..]);
      DigitRoundTrip(bs[0] / 16);
      DigitRoundTrip(bs[0] % 16);
      DecodeStep(DIGITS[bs[0] / 16], DIGITS[bs[0] % 16], Encode(bs[1..]));
      assert [bs[0]] + bs[1..] == bs;
    }
  }

  lemma {:induction false} DecodeStep(hi: char, lo: char, rest: string)
    requires DigitValue(hi).Some? && DigitValue(lo).Some? && Decode(rest).Some?
    ensures Decode([hi, lo] + rest)
         == Some([16 * DigitValue(hi).value + DigitValue(lo).value] + Decode(rest).value)
  {
    assert ([hi, lo] + rest)[2..] == rest;
  }

  lemma {:induction false} EncodeIsLowerCase(bs: seq<Byte>)
    ensures forall c :: c in Encode(bs) ==> '0' <= c <= '9' || 'a' <= c <= 'f'
  {
    if bs != [] {
      EncodeIsLowerCase(bs[1..]);
      LowerCaseDigit(bs[0] / 16);
      LowerCaseDigit(bs[0] % 16);
    }
  }

  lemma LowerCaseDigit(d: int)
    requires 0 <= d < 16
    ensures '0' <= DIGITS[d] <= '9' || 'a' <= DIGITS[d] <= 'f'
  {
  }

  lemma DigitRoundTrip(d: int)
    requires 0 <= d < 16
    ensures DigitValue(DIGITS[d]) == Some(d)
  {
  }

  /** `ensure_safe_key`: short enough, and base16, so never a path outside its directory. */
  predicate SafeKey(key: string) {
    |key| < 200 && Decode(key).Some?
  }
}
