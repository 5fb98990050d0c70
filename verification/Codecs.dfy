/** The binary form of chain parameters: big-endian fields, with checks on the way in. */
module Codecs {
  import opened Bytes
  import opened Decimals
  import opened ChainParameters

  const MAX_URL_LENGTH := 2048

  datatype ProtocolVersion = P1 | P2 | P3 | P4 | P5 | P6 | P7

  /** From the first on; a version is written as its number. */
  const VERSIONS := [P1, P2, P3, P4, P5, P6, P7]

  datatype Range = Range(min: nat, max: nat)

  datatype Parameter =
    | UrlText(text: seq<Byte>)
    | PassiveDelegation
    | BakerDelegation(bakerId: nat)
    | Protocol(version: ProtocolVersion)
    | CommissionRanges(finalization: Range, baking: Range, transaction: Range)
    | MintDistributionV0(mintPerSlot: MintRate, bakingReward: nat, finalizationReward: nat)
    | MintDistributionV1(bakingReward: nat, finalizationReward: nat)
    | LeverageFactor(numerator: nat, denominator: nat)

  /** The types of parameters that are read back. */
  datatype Kind = Url | DelegationTarget | Version | Ranges | MintV0 | MintV1 | Leverage

  function KindOf(p: Parameter): Kind {
    match p
    case UrlText(_) => Url
    case PassiveDelegation => DelegationTarget
    case BakerDelegation(_) => DelegationTarget
    case Protocol(_) => Version
    case CommissionRanges(_, _, _) => Ranges
    case MintDistributionV0(_, _, _) => MintV0
    case MintDistributionV1(_, _) => MintV1
    case LeverageFactor(_, _) => Leverage
  }

  predicate U64(x: nat) { x < 0x1_0000_0000_0000_0000 }

  predicate RangeOk(r: Range) { r.min <= r.max <= WHOLE }

  /** What the types promise of their values; `utf8` tells which bytes are text. */
  predicate WellFormed(utf8: seq<Byte> -> bool, p: Parameter) {
    match p
    case UrlText(text) => |text| <= 2048 && utf8(text)
    case PassiveDelegation => true
    case BakerDelegation(id) => U64(id)
    case Protocol(_) => true
    case CommissionRanges(f, b, t) => RangeOk(f) && RangeOk(b) && RangeOk(t)
    case MintDistributionV0(rate, b, f) => ValidRate(rate) && b + f <= WHOLE
    case MintDistributionV1(b, f) => b + f <= WHOLE
    case LeverageFactor(n, d) => U64(n) && U64(d) && AcceptsLeverage(n, d)
  }

  function VersionNumber(v: ProtocolVersion): (n: nat)
    ensures 1 <= n <= 7
  {
    match v case P1 => 1 case P2 => 2 case P3 => 3 case P4 => 4 case P5 => 5 case P6 => 6 case P7 => 7
  }

  function VersionOf(n: nat): Option<ProtocolVersion> {
    if n == 1 then Some(P1) else if n == 2 then Some(P2) else if n == 3 then Some(P3)
    else if n == 4 then Some(P4) else if n == 5 then Some(P5) else if n == 6 then Some(P6)
    else if n == 7 then Some(P7) else None
  }

  function EncodeRange(r: Range): seq<Byte> {
    BigEndian(r.min, 4) + BigEndian(r.max, 4)
  }

  function Encode(p: Parameter): seq<Byte> {
    match p
    case UrlText(text) => BigEndian(|text|, 2) + text
    case PassiveDelegation => BigEndian(0, 1)
    case BakerDelegation(id) => BigEndian(1, 1) + BigEndian(id, 8)
    case Protocol(v) => BigEndian(VersionNumber(v), 8)
    case CommissionRanges(f, b, t) => EncodeRange(f) + EncodeRange(b) + EncodeRange(t)
    case MintDistributionV0(rate, b, f) =>
      BigEndian(rate.mantissa, 4) + BigEndian(rate.exponent, 1) + BigEndian(b, 4) + BigEndian(f, 4)
    case MintDistributionV1(b, f) => BigEndian(b, 4) + BigEndian(f, 4)
    case LeverageFactor(n, d) => BigEndian(n, 8) + BigEndian(d, 8)
  }

  // ---------- Where the fields are ----------

  predicate RangeAt(r: Range, bs: seq<Byte>, at: nat)
    requires at + 8 <= |bs|
  {
    NumberAt(bs, at, at + 4) == r.min && NumberAt(bs, at + 4, at + 8) == r.max
  }

  /** The fields in the order of the types, each of its own width; a tag tells the targets apart, and
      the length of a text precedes it. */
  predicate LaidOut(p: Parameter, bs: seq<Byte>) {
    match p
    case UrlText(text) => |bs| == 2 + |text| && NumberAt(bs, 0, 2) == |text| && bs[2..] == text
    case PassiveDelegation => bs == [0]
    case BakerDelegation(id) => |bs| == 9 && bs[0] == 1 && NumberAt(bs, 1, 9) == id
    case Protocol(v) => |bs| == 8 && 1 <= NumberAt(bs, 0, 8) <= 7 && VERSIONS[NumberAt(bs, 0, 8) - 1] == v
    case CommissionRanges(f, b, t) => |bs| == 24 && RangeAt(f, bs, 0) && RangeAt(b, bs, 8) && RangeAt(t, bs, 16)
    case MintDistributionV0(rate, b, f) =>
      && |bs| == 13 && NumberAt(bs, 0, 4) == rate.mantissa && bs[4] == rate.exponent
      && NumberAt(bs, 5, 9) == b && NumberAt(bs, 9, 13) == f
    case MintDistributionV1(b, f) => |bs| == 8 && NumberAt(bs, 0, 4) == b && NumberAt(bs, 4, 8) == f
    case LeverageFactor(n, d) => |bs| == 16 && NumberAt(bs, 0, 8) == n && NumberAt(bs, 8, 16) == d
  }

  lemma {:induction false} PairLayout(x: nat, y: nat, width: nat)
    requires x < Pow256(width) && y < Pow256(width)
    ensures var bs := BigEndian(x, width) + BigEndian(y, width);
            NumberAt(bs, 0, width) == x && NumberAt(bs, width, 2 * width) == y
  {
    assert [] + BigEndian(x, width) + BigEndian(y, width) == BigEndian(x, width) + BigEndian(y, width);
    Placed([], x, width, BigEndian(y, width));
    assert BigEndian(x, width) + BigEndian(y, width) + [] == BigEndian(x, width) + BigEndian(y, width);
    Placed(BigEndian(x, width), y, width, []);
  }

  lemma RangeLayout(front: seq<Byte>, r: Range, back: seq<Byte>)
    requires RangeOk(r)
    ensures RangeAt(r, front + EncodeRange(r) + back, |front|)
  {
    var bs := front + EncodeRange(r) + back;
    Sizes();
    assert bs == front + BigEndian(r.min, 4) + (BigEndian(r.max, 4) + back);
    Placed(front, r.min, 4, BigEndian(r.max, 4) + back);
    assert bs == (front + BigEndian(r.min, 4)) + BigEndian(r.max, 4) + back;
    Placed(front + BigEndian(r.min, 4), r.max, 4, back);
  }

  lemma RangesLayout(f: Range, b: Range, t: Range)
    requires RangeOk(f) && RangeOk(b) && RangeOk(t)
    ensures LaidOut(CommissionRanges(f, b, t), Encode(CommissionRanges(f, b, t)))
  {
    var bs := Encode(CommissionRanges(f, b, t));
    assert bs == [] + EncodeRange(f) + (EncodeRange(b) + EncodeRange(t));
    RangeLayout([], f, EncodeRange(b) + EncodeRange(t));
    RangeLayout(EncodeRange(f), b, EncodeRange(t));
    assert bs == (EncodeRange(f) + EncodeRange(b)) + EncodeRange(t) + [];
    RangeLayout(EncodeRange(f) + EncodeRange(b), t, []);
  }

  lemma MintV0Layout(rate: MintRate, b: nat, f: nat)
    requires ValidRate(rate) && b + f <= WHOLE
    ensures LaidOut(MintDistributionV0(rate, b, f), Encode(MintDistributionV0(rate, b, f)))
  {
    var bs := Encode(MintDistributionV0(rate, b, f));
    var front := BigEndian(rate.mantissa, 4) + BigEndian(rate.exponent, 1);
    Sizes();
    OneByte(rate.exponent);
    assert bs == [] + BigEndian(rate.mantissa, 4) + (BigEndian(rate.exponent, 1) + BigEndian(b, 4) + BigEndian(f, 4));
    Placed([], rate.mantissa, 4, BigEndian(rate.exponent, 1) + BigEndian(b, 4) + BigEndian(f, 4));
    Placed(front, b, 4, BigEndian(f, 4));
    assert bs == (front + BigEndian(b, 4)) + BigEndian(f, 4) + [];
    Placed(front + BigEndian(b, 4), f, 4, []);
  }

  lemma ShortLayout(utf8: seq<Byte> -> bool, p: Parameter)
    requires WellFormed(utf8, p) && (p.UrlText? || p.PassiveDelegation? || p.BakerDelegation? || p.Protocol?)
    ensures LaidOut(p, Encode(p))
  {
    Sizes();
    OneByte(0);
    OneByte(1);
    match p
    case UrlText(text) =>
      assert Encode(p) == [] + BigEndian(|text|, 2) + text;
      Placed([], |text|, 2, text);
    case BakerDelegation(id) =>
      assert Encode(p) == [1] + BigEndian(id, 8) + [];
      Placed([1], id, 8, []);
    case Protocol(v) =>
      assert Encode(p) == [] + BigEndian(VersionNumber(v), 8) + [];
      Placed([], VersionNumber(v), 8, []);
    case PassiveDelegation =>
  }

  /** Every well-formed value is laid out in this way. */
  lemma EncodeLaysOut(utf8: seq<Byte> -> bool, p: Parameter)
    requires WellFormed(utf8, p)
    ensures LaidOut(p, Encode(p))
  {
    Sizes();
    match p
    case CommissionRanges(f, b, t) => RangesLayout(f, b, t);
    case MintDistributionV0(rate, b, f) => MintV0Layout(rate, b, f);
    case MintDistributionV1(b, f) => PairLayout(b, f, 4);
    case LeverageFactor(n, d) => PairLayout(n, d, 8);
    case _ => ShortLayout(utf8, p);
  }

  // ---------- Decoding: a value and the bytes after it ----------

  type Parsed<T> = Option<(T, seq<Byte>)>

  function Take(bs: seq<Byte>, n: nat): Parsed<seq<Byte>> {
    if |bs| < n then None else Some((bs[..n], bs[n..]))
  }

  function GetUint(bs: seq<Byte>, width: nat): Parsed<nat> {
    var (front, rest) :- Take(bs, width);
    Some((FromBigEndian(front), rest))
  }

  /** `PartsPerHundredThousands::deserial` */
  function GetParts(bs: seq<Byte>): Parsed<nat> {
    var (parts, rest) :- GetUint(bs, 4);
    if parts <= WHOLE then Some((parts, rest)) else None
  }

  function GetRange(bs: seq<Byte>): Parsed<Range> {
    var (min, bs1) :- GetParts(bs);
    var (max, bs2) :- GetParts(bs1);
    if min <= max then Some((Range(min, max), bs2)) else None
  }

  function GetRewards(bs: seq<Byte>): Parsed<(nat, nat)> {
    var (b, bs1) :- GetParts(bs);
    var (f, bs2) :- GetParts(bs1);
    if b + f <= WHOLE then Some(((b, f), bs2)) else None
  }

  function GetUrl(utf8: seq<Byte> -> bool, bs: seq<Byte>): Parsed<Parameter> {
    var (length, bs1) :- GetUint(bs, 2);
    if length > MAX_URL_LENGTH then None else
    var (text, bs2) :- Take(bs1, length);
    if utf8(text) then Some((UrlText(text), bs2)) else None
  }

  function GetTarget(bs: seq<Byte>): Parsed<Parameter> {
    var (tag, bs1) :- GetUint(bs, 1);
    if tag == 0 then Some((PassiveDelegation, bs1))
    else if tag == 1 then var (id, bs2) :- GetUint(bs1, 8); Some((BakerDelegation(id), bs2))
    else None
  }

  function GetVersion(bs: seq<Byte>): Parsed<Parameter> {
    var (n, bs1) :- GetUint(bs, 8);
    var v :- VersionOf(n);
    Some((Protocol(v), bs1))
  }

  function GetRanges(bs: seq<Byte>): Parsed<Parameter> {
    var (f, bs1) :- GetRange(bs);
    var (b, bs2) :- GetRange(bs1);
    var (t, bs3) :- GetRange(bs2);
    Some((CommissionRanges(f, b, t), bs3))
  }

  function GetMintV0(bs: seq<Byte>): Parsed<Parameter> {
    var (mantissa, bs1) :- GetUint(bs, 4);
    var (exponent, bs2) :- GetUint(bs1, 1);
    var (rewards, bs3) :- GetRewards(bs2);
    Some((MintDistributionV0(MintRate(mantissa, exponent), rewards.0, rewards.1), bs3))
  }

  function GetMintV1(bs: seq<Byte>): Parsed<Parameter> {
    var (rewards, bs1) :- GetRewards(bs);
    Some((MintDistributionV1(rewards.0, rewards.1), bs1))
  }

  function GetLeverage(bs: seq<Byte>): Parsed<Parameter> {
    var (n, bs1) :- GetUint(bs, 8);
    var (d, bs2) :- GetUint(bs1, 8);
    if AcceptsLeverage(n, d) then Some((LeverageFactor(n, d), bs2)) else None
  }

  function Decode(kind: Kind, utf8: seq<Byte> -> bool, bs: seq<Byte>): Parsed<Parameter> {
    match kind
    case Url => GetUrl(utf8, bs)
    case DelegationTarget => GetTarget(bs)
    case Version => GetVersion(bs)
    case Ranges => GetRanges(bs)
    case MintV0 => GetMintV0(bs)
    case MintV1 => GetMintV1(bs)
    case Leverage => GetLeverage(bs)
  }

  // ---------- Laws of the fields ----------

  lemma Sizes()
    ensures Pow256(1) == 0x100 && Pow256(2) == 0x1_0000 && Pow256(4) == 0x1_0000_0000
    ensures Pow256(8) == 0x1_0000_0000_0000_0000
  {
    assert Pow256(4) == 256 * 256 * 256 * 256;
    assert Pow256(8) == 256 * 256 * 256 * 256 * Pow256(4);
  }

  lemma TakeFront(front: seq<Byte>, rest: seq<Byte>)
    ensures Take(front + rest, |front|) == Some((front, rest))
  {
  }

  lemma {:induction false} UintForth(x: nat, width: nat, rest: seq<Byte>)
    requires x < Pow256(width)
    ensures GetUint(BigEndian(x, width) + rest, width) == Some((x, rest))
  {
    BigEndianRoundTrip(x, width);
    TakeFront(BigEndian(x, width), rest);
  }

  lemma {:induction false} UintBack(bs: seq<Byte>, width: nat)
    requires GetUint(bs, width).Some?
    ensures var (x, rest) := GetUint(bs, width).value;
            x < Pow256(width) && bs == BigEndian(x, width) + rest
  {
    FromBigEndianRoundTrip(bs[..width]);
  }

  lemma {:induction false} PairForth(x: nat, y: nat, width: nat, rest: seq<Byte>)
    requires x < Pow256(width) && y < Pow256(width)
    ensures var bs := BigEndian(x, width) + BigEndian(y, width) + rest;
            && GetUint(bs, width) == Some((x, BigEndian(y, width) + rest))
            && GetUint(BigEndian(y, width) + rest, width) == Some((y, rest))
  {
    assert BigEndian(x, width) + BigEndian(y, width) + rest == BigEndian(x, width) + (BigEndian(y, width) + rest);
    UintForth(x, width, BigEndian(y, width) + rest);
    UintForth(y, width, rest);
  }

  lemma RangeForth(r: Range, rest: seq<Byte>)
    requires RangeOk(r)
    ensures GetRange(EncodeRange(r) + rest) == Some((r, rest))
  {
    Sizes();
    PairForth(r.min, r.max, 4, rest);
  }

  lemma RangeBack(bs: seq<Byte>)
    requires GetRange(bs).Some?
    ensures var (r, rest) := GetRange(bs).value; RangeOk(r) && bs == EncodeRange(r) + rest
  {
    UintBack(bs, 4);
    UintBack(GetUint(bs, 4).value.1, 4);
  }

  lemma {:induction false} RewardsForth(b: nat, f: nat, rest: seq<Byte>)
    requires b + f <= WHOLE
    ensures GetRewards(BigEndian(b, 4) + BigEndian(f, 4) + rest) == Some(((b, f), rest))
  {
    Sizes();
    PairForth(b, f, 4, rest);
  }

  lemma RewardsBack(bs: seq<Byte>)
    requires GetRewards(bs).Some?
    ensures var ((b, f), rest) := GetRewards(bs).value;
            b + f <= WHOLE && bs == BigEndian(b, 4) + BigEndian(f, 4) + rest
  {
    UintBack(bs, 4);
    UintBack(GetUint(bs, 4).value.1, 4);
  }

  // ---------- Laws of the codec ----------

  lemma UrlForth(utf8: seq<Byte> -> bool, text: seq<Byte>, rest: seq<Byte>)
    requires |text| <= 2048 && utf8(text)
    ensures GetUrl(utf8, Encode(UrlText(text)) + rest) == Some((UrlText(text), rest))
  {
    Sizes();
    assert Encode(UrlText(text)) + rest == BigEndian(|text|, 2) + (text + rest);
    UintForth(|text|, 2, text + rest);
    TakeFront(text, rest);
  }

  lemma TargetForth(p: Parameter, rest: seq<Byte>)
    requires p.PassiveDelegation? || (p.BakerDelegation? && U64(p.bakerId))
    ensures GetTarget(Encode(p) + rest) == Some((p, rest))
  {
    Sizes();
    if p.PassiveDelegation? {
      UintForth(0, 1, rest);
    } else {
      assert Encode(p) + rest == BigEndian(1, 1) + (BigEndian(p.bakerId, 8) + rest);
      UintForth(1, 1, BigEndian(p.bakerId, 8) + rest);
      UintForth(p.bakerId, 8, rest);
    }
  }

  lemma VersionForth(v: ProtocolVersion, rest: seq<Byte>)
    ensures GetVersion(Encode(Protocol(v)) + rest) == Some((Protocol(v), rest))
  {
    Sizes();
    UintForth(VersionNumber(v), 8, rest);
  }

  lemma RangesForth(f: Range, b: Range, t: Range, rest: seq<Byte>)
    requires RangeOk(f) && RangeOk(b) && RangeOk(t)
    ensures GetRanges(Encode(CommissionRanges(f, b, t)) + rest) == Some((CommissionRanges(f, b, t), rest))
  {
    assert Encode(CommissionRanges(f, b, t)) + rest == EncodeRange(f) + (EncodeRange(b) + (EncodeRange(t) + rest));
    RangeForth(f, EncodeRange(b) + (EncodeRange(t) + rest));
    RangeForth(b, EncodeRange(t) + rest);
    RangeForth(t, rest);
  }

  lemma MintV0Forth(rate: MintRate, b: nat, f: nat, rest: seq<Byte>)
    requires ValidRate(rate) && b + f <= WHOLE
    ensures GetMintV0(Encode(MintDistributionV0(rate, b, f)) + rest) == Some((MintDistributionV0(rate, b, f), rest))
  {
    Sizes();
    var rewards := BigEndian(b, 4) + BigEndian(f, 4) + rest;
    assert Encode(MintDistributionV0(rate, b, f)) + rest
        == BigEndian(rate.mantissa, 4) + (BigEndian(rate.exponent, 1) + rewards);
    UintForth(rate.mantissa, 4, BigEndian(rate.exponent, 1) + rewards);
    UintForth(rate.exponent, 1, rewards);
    RewardsForth(b, f, rest);
  }

  lemma LeverageForth(n: nat, d: nat, rest: seq<Byte>)
    requires U64(n) && U64(d) && AcceptsLeverage(n, d)
    ensures GetLeverage(Encode(LeverageFactor(n, d)) + rest) == Some((LeverageFactor(n, d), rest))
  {
    Sizes();
    PairForth(n, d, 8, rest);
  }

  /** Decoding what was encoded gives it back and leaves whatever follows. */
  lemma DecodeEncode(utf8: seq<Byte> -> bool, p: Parameter, rest: seq<Byte>)
    requires WellFormed(utf8, p)
    ensures Decode(KindOf(p), utf8, Encode(p) + rest) == Some((p, rest))
  {
    match p
    case UrlText(text) => UrlForth(utf8, text, rest);
    case PassiveDelegation => TargetForth(p, rest);
    case BakerDelegation(_) => TargetForth(p, rest);
    case Protocol(v) => VersionForth(v, rest);
    case CommissionRanges(f, b, t) => RangesForth(f, b, t, rest);
    case MintDistributionV0(rate, b, f) => MintV0Forth(rate, b, f, rest);
    case MintDistributionV1(b, f) => RewardsForth(b, f, rest);
    case LeverageFactor(n, d) => LeverageForth(n, d, rest);
  }

  /** The value is of the type, well formed, and encodes to the bytes consumed. */
  ghost predicate Reencodes(kind: Kind, utf8: seq<Byte> -> bool, bs: seq<Byte>, p: Parameter, rest: seq<Byte>) {
    KindOf(p) == kind && WellFormed(utf8, p) && bs == Encode(p) + rest
  }

  lemma UrlBack(utf8: seq<Byte> -> bool, bs: seq<Byte>)
    requires GetUrl(utf8, bs).Some?
    ensures Reencodes(Url, utf8, bs, GetUrl(utf8, bs).value.0, GetUrl(utf8, bs).value.1)
  {
    UintBack(bs, 2);
    var (length, bs1) := GetUint(bs, 2).value;
    assert bs1 == bs1[..length] + bs1[length..];
    assert bs == BigEndian(length, 2) + bs1[..length] + bs1[length..];
  }

  lemma TargetBack(utf8: seq<Byte> -> bool, bs: seq<Byte>)
    requires GetTarget(bs).Some?
    ensures Reencodes(DelegationTarget, utf8, bs, GetTarget(bs).value.0, GetTarget(bs).value.1)
  {
    Sizes();
    UintBack(bs, 1);
    var (tag, bs1) := GetUint(bs, 1).value;
    if tag == 1 {
      UintBack(bs1, 8);
    }
  }

  lemma VersionBack(utf8: seq<Byte> -> bool, bs: seq<Byte>)
    requires GetVersion(bs).Some?
    ensures Reencodes(Version, utf8, bs, GetVersion(bs).value.0, GetVersion(bs).value.1)
  {
    UintBack(bs, 8);
    VersionRoundTrip(GetUint(bs, 8).value.0);
  }

  lemma VersionRoundTrip(n: nat)
    ensures VersionOf(n).Some? ==> VersionNumber(VersionOf(n).value) == n
  {
  }

  lemma RangesBack(utf8: seq<Byte> -> bool, bs: seq<Byte>)
    requires GetRanges(bs).Some?
    ensures Reencodes(Ranges, utf8, bs, GetRanges(bs).value.0, GetRanges(bs).value.1)
  {
    RangeBack(bs);
    var (f, bs1) := GetRange(bs).value;
    RangeBack(bs1);
    var (b, bs2) := GetRange(bs1).value;
    RangeBack(bs2);
    var (t, bs3) := GetRange(bs2).value;
    assert bs == EncodeRange(f) + EncodeRange(b) + EncodeRange(t) + bs3;
  }

  lemma MintV0Back(utf8: seq<Byte> -> bool, bs: seq<Byte>)
    requires GetMintV0(bs).Some?
    ensures Reencodes(MintV0, utf8, bs, GetMintV0(bs).value.0, GetMintV0(bs).value.1)
  {
    Sizes();
    UintBack(bs, 4);
    var (mantissa, bs1) := GetUint(bs, 4).value;
    UintBack(bs1, 1);
    var (exponent, bs2) := GetUint(bs1, 1).value;
    RewardsBack(bs2);
    var (rewards, bs3) := GetRewards(bs2).value;
    assert bs
        == BigEndian(mantissa, 4) + BigEndian(exponent, 1) + BigEndian(rewards.0, 4) + BigEndian(rewards.1, 4) + bs3;
  }

  lemma LeverageBack(utf8: seq<Byte> -> bool, bs: seq<Byte>)
    requires GetLeverage(bs).Some?
    ensures Reencodes(Leverage, utf8, bs, GetLeverage(bs).value.0, GetLeverage(bs).value.1)
  {
    Sizes();
    UintBack(bs, 8);
    var (n, bs1) := GetUint(bs, 8).value;
    UintBack(bs1, 8);
    var (d, bs2) := GetUint(bs1, 8).value;
    assert bs == BigEndian(n, 8) + BigEndian(d, 8) + bs2;
  }

  /** Whatever is accepted is well formed, and encodes to exactly the bytes consumed. */
  lemma EncodeDecode(kind: Kind, utf8: seq<Byte> -> bool, bs: seq<Byte>)
    requires Decode(kind, utf8, bs).Some?
    ensures Reencodes(kind, utf8, bs, Decode(kind, utf8, bs).value.0, Decode(kind, utf8, bs).value.1)
  {
    match kind
    case Url => UrlBack(utf8, bs);
    case DelegationTarget => TargetBack(utf8, bs);
    case Version => VersionBack(utf8, bs);
    case Ranges => RangesBack(utf8, bs);
    case MintV0 => MintV0Back(utf8, bs);
    case MintV1 => RewardsBack(bs);
    case Leverage => LeverageBack(utf8, bs);
  }

  /** No encoding is a proper prefix of another one of the same type. */
  lemma EncodingsAreSelfDelimiting(utf8: seq<Byte> -> bool, p: Parameter, q: Parameter, r: seq<Byte>, r': seq<Byte>)
    requires WellFormed(utf8, p) && WellFormed(utf8, q) && KindOf(p) == KindOf(q)
    requires Encode(p) + r == Encode(q) + r'
    ensures p == q && r == r'
  {
    DecodeEncode(utf8, p, r);
    DecodeEncode(utf8, q, r');
  }
}
