/** BIP39 sentences: entropy and a checksum cut into 11-bit word indices, and the mixing of a
    word list with fresh randomness.  Words are strings, held as their UTF-8 bytes. */
module Bip39 {
  import opened Bytes

  type Bits = seq<bool>
  type Word = seq<Byte>

  // ---------- Bit strings, most significant bit first ----------

  function Pow2(n: nat): (p: nat)
    ensures p > 0
  {
    if n == 0 then 1 else 2 * Pow2(n - 1)
  }

  function BitsOf(x: nat, width: nat): (bits: Bits)
    ensures |bits| == width
  {
    if width == 0 then [] else BitsOf(x / 2, width - 1) + [x % 2 == 1]
  }

  function ToNat(bits: Bits): nat {
    if bits == [] then 0 else 2 * ToNat(bits[..|bits| - 1]) + if bits[|bits| - 1] then 1 else 0
  }

  lemma {:induction false} ToNatBitsOf(x: nat, width: nat)
    requires x < Pow2(width)
    ensures ToNat(BitsOf(x, width)) == x
  {
    if width > 0 {
      ToNatBitsOf(x / 2, width - 1);
      assert BitsOf(x, width)[..width - 1] == BitsOf(x / 2, width - 1);
    }
  }

  lemma {:induction false} BitsOfToNat(bits: Bits)
    ensures ToNat(bits) < Pow2(|bits|)
    ensures BitsOf(ToNat(bits), |bits|) == bits
  {
    if bits != [] {
      BitsOfToNat(bits[..|bits| - 1]);
      assert bits == bits[..|bits| - 1] + [bits[|bits| - 1]];
    }
  }

  predicate Fit(xs: seq<nat>, width: nat) {
    forall i :: 0 <= i < |xs| ==> xs[i] < Pow2(width)
  }

  /** The numbers one after the other, `width` bits each. */
  function Pack(xs: seq<nat>, width: nat): (bits: Bits)
    ensures |bits| == width * |xs|
  {
    if xs == [] then [] else BitsOf(xs[0], width) + Pack(xs[1..], width)
  }

  /** The bits cut into `count` pieces of `width`, each read as a number. */
  function Unpack(bits: Bits, width: nat, count: nat): (xs: seq<nat>)
    requires |bits| == width * count
    ensures |xs| == count
    decreases count
  {
    if count == 0 then [] else
      assert width * count == width + width * (count - 1);
      [ToNat(bits[..width])] + Unpack(bits[width..], width, count - 1)
  }

  lemma {:induction false} UnpackPack(xs: seq<nat>, width: nat)
    requires Fit(xs, width)
    ensures Unpack(Pack(xs, width), width, |xs|) == xs
  {
    if xs != [] {
      var bits := Pack(xs, width);
      assert Fit(xs[1..], width) && xs[0] < Pow2(width);
      UnpackPack(xs[1..], width);
      ToNatBitsOf(xs[0], width);
      assert bits[..width] == BitsOf(xs[0], width) && bits[width..] == Pack(xs[1..], width);
    }
  }

  lemma {:induction false} PackUnpack(bits: Bits, width: nat, count: nat)
    requires |bits| == width * count
    ensures Fit(Unpack(bits, width, count), width)
    ensures Pack(Unpack(bits, width, count), width) == bits
    decreases count
  {
    if count > 0 {
      assert width * count == width + width * (count - 1);
      PackUnpack(bits[width..], width, count - 1);
      BitsOfToNat(bits[..width]);
      assert Unpack(bits, width, count)[1..] == Unpack(bits[width..], width, count - 1);
      assert bits == bits[..width] + bits[width..];
    }
  }

  // ---------- Word lists ----------

  const LIST_SIZE := 2048

  /** What the repository's list is: 2048 words, all different. */
  predicate ValidList(list: seq<Word>) {
    |list| == LIST_SIZE && forall i, j :: 0 <= i < j < |list| ==> list[i] != list[j]
  }

  /** `bip39_map`: from each word to its place in the list. */
  function WordMap(list: seq<Word>): map<Word, nat> {
    if list == [] then map[] else WordMap(list[..|list| - 1])[list[|list| - 1] := |list| - 1]
  }

  lemma {:induction false} WordMapInverts(list: seq<Word>)
    requires forall i, j :: 0 <= i < j < |list| ==> list[i] != list[j]
    ensures forall w :: w in WordMap(list) ==> WordMap(list)[w] < |list| && list[WordMap(list)[w]] == w
    ensures forall i :: 0 <= i < |list| ==> list[i] in WordMap(list) && WordMap(list)[list[i]] == i
  {
    if list != [] {
      var init := list[..|list| - 1];
      WordMapInverts(init);
      forall i | 0 <= i < |list| ensures list[i] in WordMap(list) && WordMap(list)[list[i]] == i {
        if i < |list| - 1 { assert list[i] == init[i]; }
      }
    }
  }

  // ---------- The codec as functions ----------

  /** A hash with 32-byte digests, such as SHA-256. */
  ghost predicate ValidHash(hash: seq<Byte> -> seq<Byte>) {
    forall x :: |hash(x)| == 32
  }

  /** The numbers of bytes that can be made into a sentence. */
  predicate AllowedBytes(n: nat) {
    n in {16, 20, 24, 28, 32}
  }

  predicate AllowedWords(n: nat) {
    n in {12, 15, 18, 21, 24}
  }

  /** The entropy followed by the first bits of its hash, one for every four bytes. */
  function CheckedBits(hash: seq<Byte> -> seq<Byte>, bytes: seq<Byte>): (bits: Bits)
    requires |hash(bytes)| == 32 && AllowedBytes(|bytes|)
    ensures |bits| == 11 * (3 * (|bytes| / 4))
  {
    Pack(bytes, 8) + Pack(hash(bytes), 8)[..|bytes| / 4]
  }

  function Words(list: seq<Word>, indices: seq<nat>): (ws: seq<Word>)
    requires |list| == LIST_SIZE && Fit(indices, 11)
    ensures |ws| == |indices|
    ensures forall i :: 0 <= i < |ws| ==> ws[i] == list[indices[i]]
  {
    Pow2Of11();
    seq(|indices|, i requires 0 <= i < |indices| => list[indices[i]])
  }

  lemma Pow2Of11()
    ensures Pow2(11) == LIST_SIZE && Pow2(8) == 256
  {
    assert Pow2(4) == 16;
    assert Pow2(8) == 256;
  }

  /** The sentence of an allowed number of bytes. */
  function Sentence(hash: seq<Byte> -> seq<Byte>, list: seq<Word>, bytes: seq<Byte>): (ws: seq<Word>)
    requires |hash(bytes)| == 32 && AllowedBytes(|bytes|) && |list| == LIST_SIZE
    ensures |ws| == 3 * (|bytes| / 4)
  {
    var bits := CheckedBits(hash, bytes);
    PackUnpack(bits, 11, 3 * (|bytes| / 4));
    Words(list, Unpack(bits, 11, 3 * (|bytes| / 4)))
  }

  function Indices(index: map<Word, nat>, ws: seq<Word>): (xs: seq<nat>)
    requires forall w :: w in ws ==> w in index
    ensures |xs| == |ws|
    ensures forall i :: 0 <= i < |ws| ==> xs[i] == index[ws[i]]
  {
    seq(|ws|, i requires 0 <= i < |ws| => index[ws[i]])
  }

  /** The bytes whose bits these are. */
  function BytesOf(bits: Bits): (bytes: seq<Byte>)
    requires |bits| % 8 == 0
    ensures |bytes| == |bits| / 8
  {
    PackUnpack(bits, 8, |bits| / 8);
    Pow2Of11();
    Unpack(bits, 8, |bits| / 8)
  }

  /** The part of the bits that is not checksum. */
  function EntropyLength(n: nat): (r: nat)
    ensures n % 33 == 0 ==> r == 32 * (n / 33)
  {
    32 * n / 33
  }

  /** The bits of a sentence of `3 m` words: `m` bits of the hash follow the entropy. */
  predicate ChecksumHolds(hash: seq<Byte> -> seq<Byte>, bits: Bits, m: nat)
    requires ValidHash(hash) && |bits| == 33 * m && m <= 8
  {
    bits[32 * m..] == Pack(hash(BytesOf(bits[..32 * m])), 8)[..m]
  }

  predicate Accepts(hash: seq<Byte> -> seq<Byte>, index: map<Word, nat>, ws: seq<Word>)
    requires ValidHash(hash)
  {
    && AllowedWords(|ws|)
    && (forall w :: w in ws ==> w in index)
    && ChecksumHolds(hash, Pack(Indices(index, ws), 11), |ws| / 3)
  }

  // ---------- Exactness ----------

  /** The entropy that an accepted sentence encodes. */
  ghost function Entropy(index: map<Word, nat>, ws: seq<Word>): (bytes: seq<Byte>)
    requires AllowedWords(|ws|) && forall w :: w in ws ==> w in index
    ensures AllowedBytes(|bytes|)
  {
    BytesOf(Pack(Indices(index, ws), 11)[..32 * (|ws| / 3)])
  }

  lemma {:induction false} IndicesFit(list: seq<Word>, ws: seq<Word>)
    requires ValidList(list) && forall w :: w in ws ==> w in WordMap(list)
    ensures Fit(Indices(WordMap(list), ws), 11)
    ensures Words(list, Indices(WordMap(list), ws)) == ws
  {
    WordMapInverts(list);
    Pow2Of11();
  }

  lemma PackBytesOf(bits: Bits)
    requires |bits| % 8 == 0
    ensures Pack(BytesOf(bits), 8) == bits
  {
    PackUnpack(bits, 8, |bits| / 8);
  }

  /** Bits that pass the test are the checked bits of their first part. */
  lemma HoldsIsChecked(hash: seq<Byte> -> seq<Byte>, bits: Bits, m: nat)
    requires ValidHash(hash) && |bits| == 33 * m && m in {4, 5, 6, 7, 8} && ChecksumHolds(hash, bits, m)
    ensures CheckedBits(hash, BytesOf(bits[..32 * m])) == bits
  {
    PackBytesOf(bits[..32 * m]);
    assert bits == bits[..32 * m] + bits[32 * m..];
  }

  /** An accepted sentence is the sentence of its entropy. */
  lemma {:induction false} AcceptedIsSentence(hash: seq<Byte> -> seq<Byte>, list: seq<Word>, ws: seq<Word>)
    requires ValidHash(hash) && ValidList(list) && Accepts(hash, WordMap(list), ws)
    ensures Sentence(hash, list, Entropy(WordMap(list), ws)) == ws
  {
    var indices := Indices(WordMap(list), ws);
    IndicesFit(list, ws);
    HoldsIsChecked(hash, Pack(indices, 11), |ws| / 3);
    UnpackPack(indices, 11);
  }

  /** Looking the words of a sentence up gives its bits back. */
  lemma {:induction false} SentenceBits(hash: seq<Byte> -> seq<Byte>, list: seq<Word>, bytes: seq<Byte>)
    requires ValidHash(hash) && ValidList(list) && AllowedBytes(|bytes|)
    ensures forall w :: w in Sentence(hash, list, bytes) ==> w in WordMap(list)
    ensures Pack(Indices(WordMap(list), Sentence(hash, list, bytes)), 11) == CheckedBits(hash, bytes)
  {
    var bits := CheckedBits(hash, bytes);
    var indices := Unpack(bits, 11, 3 * (|bytes| / 4));
    var ws := Sentence(hash, list, bytes);
    PackUnpack(bits, 11, 3 * (|bytes| / 4));
    WordMapInverts(list);
    Pow2Of11();
    forall i | 0 <= i < |ws| ensures ws[i] in WordMap(list) && WordMap(list)[ws[i]] == indices[i] {
      assert ws[i] == list[indices[i]];
    }
    assert Indices(WordMap(list), ws) == indices;
  }

  lemma {:induction false} BytesOfPack(bytes: seq<Byte>)
    ensures BytesOf(Pack(bytes, 8)) == bytes
  {
    Pow2Of11();
    UnpackPack(bytes, 8);
  }

  lemma CheckedBitsHold(hash: seq<Byte> -> seq<Byte>, bytes: seq<Byte>, m: nat)
    requires ValidHash(hash) && m in {4, 5, 6, 7, 8} && |bytes| == 4 * m
    ensures |CheckedBits(hash, bytes)| == 33 * m
    ensures BytesOf(CheckedBits(hash, bytes)[..32 * m]) == bytes
    ensures ChecksumHolds(hash, CheckedBits(hash, bytes), m)
  {
    var bits := CheckedBits(hash, bytes);
    assert bits[..32 * m] == Pack(bytes, 8);
    assert bits[32 * m..] == Pack(hash(bytes), 8)[..m];
    BytesOfPack(bytes);
  }

  lemma CheckedIsAccepted(hash: seq<Byte> -> seq<Byte>, index: map<Word, nat>, ws: seq<Word>, bytes: seq<Byte>)
    requires ValidHash(hash) && AllowedBytes(|bytes|) && |ws| == 3 * (|bytes| / 4)
    requires forall w :: w in ws ==> w in index
    requires Pack(Indices(index, ws), 11) == CheckedBits(hash, bytes)
    ensures Accepts(hash, index, ws) && Entropy(index, ws) == bytes
  {
    CheckedBitsHold(hash, bytes, |bytes| / 4);
  }

  /** The sentence of any bytes is accepted, and encodes just them. */
  lemma {:induction false} SentenceIsAccepted(hash: seq<Byte> -> seq<Byte>, list: seq<Word>, bytes: seq<Byte>)
    requires ValidHash(hash) && ValidList(list) && AllowedBytes(|bytes|)
    ensures Accepts(hash, WordMap(list), Sentence(hash, list, bytes))
    ensures Entropy(WordMap(list), Sentence(hash, list, bytes)) == bytes
  {
    SentenceBits(hash, list, bytes);
    CheckedIsAccepted(hash, WordMap(list), Sentence(hash, list, bytes), bytes);
  }

  /** `verify_bip39` accepts exactly the outputs of `bytes_to_bip39`, each of which comes
      from one byte string only. */
  lemma {:induction false} AcceptsExactlySentences(hash: seq<Byte> -> seq<Byte>, list: seq<Word>, ws: seq<Word>)
    requires ValidHash(hash) && ValidList(list)
    ensures Accepts(hash, WordMap(list), ws) <==>
            exists bytes :: AllowedBytes(|bytes|) && Sentence(hash, list, bytes) == ws
    ensures forall b1, b2 | AllowedBytes(|b1|) && AllowedBytes(|b2|) ::
              Sentence(hash, list, b1) == ws && Sentence(hash, list, b2) == ws ==> b1 == b2
  {
    if Accepts(hash, WordMap(list), ws) {
      AcceptedIsSentence(hash, list, ws);
    }
    forall bytes | AllowedBytes(|bytes|) && Sentence(hash, list, bytes) == ws
      ensures Accepts(hash, WordMap(list), ws) && Entropy(WordMap(list), ws) == bytes
    {
      SentenceIsAccepted(hash, list, bytes);
    }
  }

  // ---------- Which bit is where ----------

  /** The bit of `x` that stands for `2` to the power `j`. */
  predicate Bit(x: nat, j: nat) {
    x / Pow2(j) % 2 == 1
  }

  lemma {:induction false} BitsOfAt(x: nat, width: nat, j: nat)
    requires j < width
    ensures BitsOf(x, width)[j] == Bit(x, width - 1 - j)
    decreases width
  {
    if j < width - 1 {
      BitsOfAt(x / 2, width - 1, j);
      DivideTwice(x, Pow2(width - 2 - j));
    }
  }

  lemma DivideTwice(x: nat, d: nat)
    requires d > 0
    ensures x / 2 / d == x / (2 * d)
  {
    var q, r := x / 2 / d, x / 2 % d;
    assert x / 2 == d * q + r;
    var rest := 2 * r + x % 2;
    assert x == (2 * d) * q + rest by {
      assert 2 * (d * q) == (2 * d) * q;
    }
    QuotientIs(x, 2 * d, q, rest);
  }

  lemma QuotientIs(x: nat, d: nat, q: nat, r: nat)
    requires r < d && x == d * q + r
    ensures x / d == q && x % d == r
  {
    var gap := x / d - q;
    assert d * gap == d * (x / d) - d * q == r - x % d;
    assert gap >= 1 ==> d * gap >= d;
    assert gap <= -1 ==> d * gap <= -1 * d;
  }

  lemma {:induction false} PackAt(xs: seq<nat>, width: nat, i: nat, j: nat)
    requires i < |xs| && j < width
    ensures 0 <= width * i + j < |Pack(xs, width)|
    ensures Pack(xs, width)[width * i + j] == Bit(xs[i], width - 1 - j)
    decreases i
  {
    if i == 0 {
      BitsOfAt(xs[0], width, j);
    } else {
      PackAt(xs[1..], width, i - 1, j);
      assert width * i + j == width + (width * (i - 1) + j);
    }
  }

  lemma CheckedBitsAt(hash: seq<Byte> -> seq<Byte>, bytes: seq<Byte>, p: nat)
    requires ValidHash(hash) && AllowedBytes(|bytes|) && p < 33 * (|bytes| / 4)
    ensures CheckedBits(hash, bytes)[p] ==
            if p < 8 * |bytes| then Bit(bytes[p / 8], 7 - p % 8) else Bit(hash(bytes)[0], 7 - (p - 8 * |bytes|))
  {
    if p < 8 * |bytes| {
      PackAt(bytes, 8, p / 8, p % 8);
    } else {
      PackAt(hash(bytes), 8, 0, p - 8 * |bytes|);
    }
  }

  lemma WordBit(index: map<Word, nat>, ws: seq<Word>, i: nat, j: nat)
    requires (forall w :: w in ws ==> w in index) && i < |ws| && j < 11
    ensures ws[i] in index && 0 <= 11 * i + j < |Pack(Indices(index, ws), 11)|
    ensures Bit(index[ws[i]], 10 - j) == Pack(Indices(index, ws), 11)[11 * i + j]
  {
    assert ws[i] in ws;
    PackAt(Indices(index, ws), 11, i, j);
  }

  lemma {:induction false} SentenceBitsAt(hash: seq<Byte> -> seq<Byte>, list: seq<Word>, bytes: seq<Byte>,
                                          i: nat, j: nat)
    requires ValidHash(hash) && ValidList(list) && AllowedBytes(|bytes|) && i < 3 * (|bytes| / 4) && j < 11
    ensures var w := Sentence(hash, list, bytes)[i];
            w in WordMap(list) && Bit(WordMap(list)[w], 10 - j) == CheckedBits(hash, bytes)[11 * i + j]
  {
    SentenceBits(hash, list, bytes);
    WordBit(WordMap(list), Sentence(hash, list, bytes), i, j);
  }

  /** The bits that a sentence spells, eleven a word, are those of its bytes from the most significant
      one on, and then the most significant ones of the first byte of their hash, one for every four
      bytes. */
  lemma {:induction false} SentenceLayout(hash: seq<Byte> -> seq<Byte>, list: seq<Word>, bytes: seq<Byte>,
                                          i: nat, j: nat)
    requires ValidHash(hash) && ValidList(list) && AllowedBytes(|bytes|) && i < 3 * (|bytes| / 4) && j < 11
    ensures var w, p := Sentence(hash, list, bytes)[i], 11 * i + j;
            && w in WordMap(list)
            && Bit(WordMap(list)[w], 10 - j) ==
               if p < 8 * |bytes| then Bit(bytes[p / 8], 7 - p % 8) else Bit(hash(bytes)[0], 7 - (p - 8 * |bytes|))
  {
    SentenceBitsAt(hash, list, bytes, i, j);
    CheckedBitsAt(hash, bytes, 11 * i + j);
  }

  // ---------- The codec as the repository runs it ----------

  lemma {:induction false} BitsOfSuffix(x: nat, cut: nat, width: nat)
    ensures BitsOf(x, cut + width)[cut..] == BitsOf(x, width)
    decreases width
  {
    if width > 0 {
      BitsOfSuffix(x / 2, cut, width - 1);
      var front := BitsOf(x / 2, cut + width - 1);
      assert BitsOf(x, cut + width) == front + [x % 2 == 1];
      assert (front + [x % 2 == 1])[cut..] == front[cut..] + [x % 2 == 1];
    }
  }

  lemma {:induction false} PackSnoc(xs: seq<nat>, x: nat, width: nat)
    ensures Pack(xs + [x], width) == Pack(xs, width) + BitsOf(x, width)
  {
    if xs == [] {
      assert [x][1..] == [];
    } else {
      PackSnoc(xs[1..], x, width);
      assert (xs + [x])[1..] == xs[1..] + [x];
    }
  }

  method VerifyBip39(hash: seq<Byte> -> seq<Byte>, words: seq<Word>, index: map<Word, nat>) returns (ok: bool)
    requires ValidHash(hash)
    ensures ok == Accepts(hash, index, words)
  {
    if |words| !in {12, 15, 18, 21, 24} {
      return false;
    }
    var bits: Bits := [];
    ghost var seen: seq<nat> := [];
    for i := 0 to |words|
      invariant forall w :: w in words[..i] ==> w in index
      invariant seen == Indices(index, words[..i]) && bits == Pack(seen, 11)
    {
      if words[i] !in index {
        assert words[i] in words;
        return false;
      }
      var idx := index[words[i]];
      var wordBits := BitsOf(idx, 16);
      bits := bits + wordBits[5..];
      BitsOfSuffix(idx, 5, 11);
      PackSnoc(seen, idx, 11);
      seen := seen + [idx];
      assert words[..i + 1] == words[..i] + [words[i]];
    }
    assert words[..|words|] == words;
    ok := VerifyChecksum(hash, bits, |words| / 3);
  }

  /** The end of `verify_bip39`: the last bits are compared with the hash of the others. */
  method VerifyChecksum(hash: seq<Byte> -> seq<Byte>, bits: Bits, ghost m: nat) returns (ok: bool)
    requires ValidHash(hash) && |bits| == 33 * m && m <= 8
    ensures ok == ChecksumHolds(hash, bits, m)
  {
    var entropyLength := EntropyLength(|bits|);
    assert entropyLength == 32 * m;
    var checksum := bits[entropyLength..];
    var digest := hash(BytesOf(bits[..entropyLength]));
    var hashBits := Pack(digest, 8);
    return checksum == hashBits[..entropyLength / 32];
  }

  /** A chunk of bits read as a number, most significant bit first. */
  method Fold(chunk: Bits) returns (acc: nat)
    ensures acc == ToNat(chunk)
  {
    acc := 0;
    for i := 0 to |chunk|
      invariant acc == ToNat(chunk[..i])
    {
      acc := 2 * acc + if chunk[i] then 1 else 0;
      assert chunk[..i + 1][..i] == chunk[..i];
    }
    assert chunk[..|chunk|] == chunk;
  }

  method BytesToBip39(hash: seq<Byte> -> seq<Byte>, bytes: seq<Byte>, list: seq<Word>) returns (r: Option<seq<Word>>)
    requires ValidHash(hash) && |list| == LIST_SIZE
    ensures r == if AllowedBytes(|bytes|) then Some(Sentence(hash, list, bytes)) else None
  {
    if 8 * |bytes| !in {128, 160, 192, 224, 256} {
      return None;
    }
    var bits := AppendChecksum(hash, bytes);
    var count := |bytes| / 4 * 3;
    PackUnpack(bits, 11, count);
    var ws := ChunksToWords(bits, count, list);
    return Some(ws);
  }

  /** The bits of the entropy and its checksum, which is a bit for every 32 of the entropy. */
  method AppendChecksum(hash: seq<Byte> -> seq<Byte>, bytes: seq<Byte>) returns (bits: Bits)
    requires |hash(bytes)| == 32 && AllowedBytes(|bytes|)
    ensures bits == CheckedBits(hash, bytes)
  {
    var checksumLength := 8 * |bytes| / 32;
    assert checksumLength == |bytes| / 4;
    bits := AppendBits(Pack(bytes, 8), Pack(hash(bytes), 8), checksumLength);
  }

  /** The loop that appends the checksum bit by bit. */
  method AppendBits(bits: Bits, hashBits: Bits, n: nat) returns (r: Bits)
    requires n <= |hashBits|
    ensures r == bits + hashBits[..n]
  {
    r := bits;
    for i := 0 to n
      invariant r == bits + hashBits[..i]
    {
      r := r + [hashBits[i]];
    }
  }

  /** The loop over the chunks of 11 bits. */
  method ChunksToWords(bits: Bits, count: nat, list: seq<Word>) returns (ws: seq<Word>)
    requires |bits| == 11 * count && |list| == LIST_SIZE && Fit(Unpack(bits, 11, count), 11)
    ensures ws == Words(list, Unpack(bits, 11, count))
  {
    Pow2Of11();
    ws := [];
    for i := 0 to count
      invariant |ws| == i
      invariant forall j :: 0 <= j < i ==> ws[j] == list[Unpack(bits, 11, count)[j]]
    {
      UnpackAt(bits, 11, count, i);
      var idx := Fold(bits[11 * i..11 * i + 11]);
      ws := ws + [list[idx]];
    }
  }

  lemma Within(width: nat, count: nat, i: nat)
    requires i < count
    ensures 0 <= width * i && width * i + width <= width * count
    ensures i > 0 ==> width * i == width + width * (i - 1)
  {
    assert width * count == width * i + width + width * (count - i - 1);
  }

  lemma SliceOfRest(bits: Bits, width: nat, at: nat)
    requires width + at + width <= |bits|
    ensures bits[width..][at..at + width] == bits[width + at..width + at + width]
  {
  }

  lemma {:induction false} UnpackAt(bits: Bits, width: nat, count: nat, i: nat)
    requires |bits| == width * count && i < count
    ensures 0 <= width * i && width * i + width <= |bits|
    ensures Unpack(bits, width, count)[i] == ToNat(bits[width * i..width * i + width])
    decreases count
  {
    Within(width, count, i);
    Within(width, count, count - 1);
    if i > 0 {
      UnpackAt(bits[width..], width, count - 1, i - 1);
      SliceOfRest(bits, width, width * (i - 1));
    }
  }
}
