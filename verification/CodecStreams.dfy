/** Serialization as the repository runs it: `serial` appends to a buffer, field by field, and
    `deserial` advances a reader, checking fields as it goes. */
module CodecStreams {
  import opened Bytes
  import opened Decimals
  import opened ChainParameters
  import opened Codecs

  class Buffer {
    var bytes: seq<Byte>

    constructor ()
      ensures bytes == []
    {
      bytes := [];
    }

    method Put(x: nat, width: nat)
      modifies this
      ensures bytes == old(bytes) + BigEndian(x, width)
    {
      bytes := bytes + BigEndian(x, width);
    }

    method WriteAll(bs: seq<Byte>)
      modifies this
      ensures bytes == old(bytes) + bs
    {
      bytes := bytes + bs;
    }
  }

  /** A reader; after a failed read the rest is of no interest. */
  class Reader {
    var rest: seq<Byte>

    constructor (bs: seq<Byte>)
      ensures rest == bs
    {
      rest := bs;
    }

    method ReadExact(n: nat) returns (r: Option<seq<Byte>>)
      modifies this
      ensures Follows(r, rest, Take(old(rest), n))
    {
      if |rest| < n {
        rest := [];
        return None;
      }
      r := Some(rest[..n]);
      rest := rest[n..];
    }

    method Get(width: nat) returns (r: Option<nat>)
      modifies this
      ensures Follows(r, rest, GetUint(old(rest), width))
    {
      var bs :- ReadExact(width);
      return Some(FromBigEndian(bs));
    }

    method ReadParts() returns (r: Option<nat>)
      modifies this
      ensures Follows(r, rest, GetParts(old(rest)))
    {
      var parts :- Get(4);
      return if parts <= WHOLE then Some(parts) else None;
    }

    method ReadRange() returns (r: Option<Range>)
      modifies this
      ensures Follows(r, rest, GetRange(old(rest)))
    {
      var min :- ReadParts();
      var max :- ReadParts();
      return if min <= max then Some(Range(min, max)) else None;
    }

    method ReadRewards() returns (r: Option<(nat, nat)>)
      modifies this
      ensures Follows(r, rest, GetRewards(old(rest)))
    {
      var b :- ReadParts();
      var f :- ReadParts();
      return if b + f <= WHOLE then Some((b, f)) else None;
    }
  }

  /** The result and the bytes left are those of the parser. */
  ghost predicate Follows<T>(r: Option<T>, rest: seq<Byte>, spec: Parsed<T>) {
    && (r.Some? <==> spec.Some?)
    && (r.Some? ==> spec.value == (r.value, rest))
  }

  method Serial(p: Parameter, out: Buffer)
    modifies out
    ensures out.bytes == old(out.bytes) + Encode(p)
  {
    match p
    case UrlText(text) =>
      SerialUrl(text, out);
    case PassiveDelegation =>
      out.Put(0, 1);
    case BakerDelegation(id) =>
      PutTwo(1, 1, id, 8, out);
    case Protocol(v) =>
      out.Put(VersionNumber(v), 8);
    case CommissionRanges(f, b, t) =>
      SerialRanges(f, b, t, out);
    case MintDistributionV0(rate, b, f) =>
      SerialMintV0(rate, b, f, out);
    case MintDistributionV1(b, f) =>
      PutTwo(b, 4, f, 4, out);
    case LeverageFactor(n, d) =>
      PutTwo(n, 8, d, 8, out);
  }

  method SerialUrl(text: seq<Byte>, out: Buffer)
    modifies out
    ensures out.bytes == old(out.bytes) + (BigEndian(|text|, 2) + text)
  {
    out.Put(|text|, 2);
    out.WriteAll(text);
  }

  method PutTwo(x: nat, xWidth: nat, y: nat, yWidth: nat, out: Buffer)
    modifies out
    ensures out.bytes == old(out.bytes) + (BigEndian(x, xWidth) + BigEndian(y, yWidth))
  {
    out.Put(x, xWidth);
    out.Put(y, yWidth);
  }

  method SerialRange(r: Range, out: Buffer)
    modifies out
    ensures out.bytes == old(out.bytes) + EncodeRange(r)
  {
    PutTwo(r.min, 4, r.max, 4, out);
  }

  method SerialRanges(f: Range, b: Range, t: Range, out: Buffer)
    modifies out
    ensures out.bytes == old(out.bytes) + Encode(CommissionRanges(f, b, t))
  {
    SerialRange(f, out);
    SerialRange(b, out);
    SerialRange(t, out);
  }

  method SerialMintV0(rate: MintRate, b: nat, f: nat, out: Buffer)
    modifies out
    ensures out.bytes == old(out.bytes) + Encode(MintDistributionV0(rate, b, f))
  {
    PutTwo(rate.mantissa, 4, rate.exponent, 1, out);
    PutTwo(b, 4, f, 4, out);
  }

  method Deserial(kind: Kind, utf8: seq<Byte> -> bool, source: Reader) returns (r: Option<Parameter>)
    modifies source
    ensures Follows(r, source.rest, Decode(kind, utf8, old(source.rest)))
  {
    match kind
    case Url =>
      var length :- source.Get(2);
      if length > MAX_URL_LENGTH { return None; }
      var text :- source.ReadExact(length);
      return if utf8(text) then Some(UrlText(text)) else None;
    case DelegationTarget =>
      var tag :- source.Get(1);
      if tag == 0 { return Some(PassiveDelegation); }
      if tag != 1 { return None; }
      var id :- source.Get(8);
      return Some(BakerDelegation(id));
    case Version =>
      var n :- source.Get(8);
      var v :- VersionOf(n);
      return Some(Protocol(v));
    case Ranges =>
      var f :- source.ReadRange();
      var b :- source.ReadRange();
      var t :- source.ReadRange();
      return Some(CommissionRanges(f, b, t));
    case MintV0 =>
      var mantissa :- source.Get(4);
      var exponent :- source.Get(1);
      var rewards :- source.ReadRewards();
      return Some(MintDistributionV0(MintRate(mantissa, exponent), rewards.0, rewards.1));
    case MintV1 =>
      var rewards :- source.ReadRewards();
      return Some(MintDistributionV1(rewards.0, rewards.1));
    case Leverage =>
      var n :- source.Get(8);
      var d :- source.Get(8);
      return if AcceptsLeverage(n, d) then Some(LeverageFactor(n, d)) else None;
  }

  /** A parameter that is written is read back, and what follows it stays unread. */
  method SerialThenDeserial(utf8: seq<Byte> -> bool, p: Parameter, rest: seq<Byte>)
    returns (r: Option<Parameter>, left: seq<Byte>)
    requires WellFormed(utf8, p)
    ensures r == Some(p) && left == rest
  {
    var out := new Buffer();
    Serial(p, out);
    out.WriteAll(rest);
    assert out.bytes == Encode(p) + rest;
    var source := new Reader(out.bytes);
    DecodeEncode(utf8, p, rest);
    r := Deserial(KindOf(p), utf8, source);
    left := source.rest;
  }
}
