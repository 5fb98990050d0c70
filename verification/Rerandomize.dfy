/** Mixing a word list with fresh randomness: the key material fed to the HKDF extractor, and
    the sentence made of the extracted key. */
module Rerandomize {
  import opened Bytes
  import opened Bip39

  const SPACE: Byte := 32

  /** Every word followed by a space. */
  function Frame(ws: seq<Word>): seq<Byte> {
    if ws == [] then [] else ws[0] + [SPACE] + Frame(ws[1..])
  }

  /** A word cut at its spaces; a word without any is its own only token. */
  function Tokens(w: Word): (ts: seq<Word>)
    ensures ts != [] && forall t :: t in ts ==> SPACE !in t
  {
    if w == [] then [[]]
    else if w[0] == SPACE then [[]] + Tokens(w[1..])
    else var ts := Tokens(w[1..]); [[w[0]] + ts[0]] + ts[1..]
  }

  function AllTokens(ws: seq<Word>): (ts: seq<Word>)
    ensures forall t :: t in ts ==> SPACE !in t
  {
    if ws == [] then [] else Tokens(ws[0]) + AllTokens(ws[1..])
  }

  lemma {:induction false} FrameAppend(xs: seq<Word>, ys: seq<Word>)
    ensures Frame(xs + ys) == Frame(xs) + Frame(ys)
  {
    if xs == [] {
      assert xs + ys == ys;
    } else {
      FrameAppend(xs[1..], ys);
      assert (xs + ys)[1..] == xs[1..] + ys;
    }
  }

  lemma {:induction false} FrameOfTokens(w: Word)
    ensures Frame(Tokens(w)) == w + [SPACE]
  {
    if w == [] {
      var ts: seq<Word> := [[]];
      assert ts[1..] == [];
      assert Frame(ts) == [SPACE];
    } else {
      FrameOfTokens(w[1..]);
      var ts := Tokens(w[1..]);
      assert w == [w[0]] + w[1..];
      if w[0] == SPACE {
        assert ([[]] + ts)[1..] == ts;
      } else {
        assert ([[w[0]] + ts[0]] + ts[1..])[1..] == ts[1..];
        assert Frame(Tokens(w)) == [w[0]] + Frame(ts);
      }
    }
  }

  lemma {:induction false} FrameOfAllTokens(ws: seq<Word>)
    ensures Frame(AllTokens(ws)) == Frame(ws)
  {
    if ws != [] {
      FrameOfTokens(ws[0]);
      FrameOfAllTokens(ws[1..]);
      FrameAppend(Tokens(ws[0]), AllTokens(ws[1..]));
    }
  }

  /** The first word of a frame ends at the first space. */
  lemma {:induction false} FirstWord(x: Word, y: Word, u: seq<Byte>, v: seq<Byte>)
    requires SPACE !in x && SPACE !in y && x + [SPACE] + u == y + [SPACE] + v
    ensures x == y && u == v
  {
    var s := x + [SPACE] + u;
    assert s[|x|] == SPACE && s[|y|] == SPACE;
    assert |x| == |y|;
    assert x == s[..|x|] == y;
    assert u == s[|x| + 1..] == v;
  }

  lemma {:induction false} FrameInjective(xs: seq<Word>, ys: seq<Word>)
    requires forall x :: x in xs ==> SPACE !in x
    requires forall y :: y in ys ==> SPACE !in y
    requires Frame(xs) == Frame(ys)
    ensures xs == ys
  {
    if xs == [] || ys == [] {
    } else {
      assert xs[0] in xs && ys[0] in ys;
      FirstWord(xs[0], ys[0], Frame(xs[1..]), Frame(ys[1..]));
      FrameInjective(xs[1..], ys[1..]);
      assert xs == [xs[0]] + xs[1..] && ys == [ys[0]] + ys[1..];
    }
  }

  lemma {:induction false} OwnTokens(ws: seq<Word>)
    requires forall w :: w in ws ==> SPACE !in w
    ensures AllTokens(ws) == ws
  {
    FrameOfAllTokens(ws);
    FrameInjective(AllTokens(ws), ws);
  }

  function KeyMaterial(ws: seq<Word>, random: seq<Byte>): seq<Byte> {
    Frame(ws) + random
  }

  /** Two inputs give the same key material exactly if the randomness is the same and the
      words are, once cut at their spaces. */
  lemma {:induction false} KeyMaterialCollides(ws: seq<Word>, r: seq<Byte>, ws': seq<Word>, r': seq<Byte>)
    requires |r| == |r'|
    ensures KeyMaterial(ws, r) == KeyMaterial(ws', r') <==> r == r' && AllTokens(ws) == AllTokens(ws')
  {
    FrameOfAllTokens(ws);
    FrameOfAllTokens(ws');
    if KeyMaterial(ws, r) == KeyMaterial(ws', r') {
      var k := KeyMaterial(ws, r);
      assert r == k[|k| - |r|..] == r';
      assert Frame(ws) == k[..|k| - |r|] == Frame(ws');
      FrameInjective(AllTokens(ws), AllTokens(ws'));
    }
  }

  /** For words without spaces the key material determines the words and the randomness. */
  lemma KeyMaterialDetermines(ws: seq<Word>, r: seq<Byte>, ws': seq<Word>, r': seq<Byte>)
    requires |r| == |r'|
    requires forall w :: w in ws || w in ws' ==> SPACE !in w
    requires KeyMaterial(ws, r) == KeyMaterial(ws', r')
    ensures ws == ws' && r == r'
  {
    KeyMaterialCollides(ws, r, ws', r');
    OwnTokens(ws);
    OwnTokens(ws');
  }

  /** With spaces inside words, different lists can be the same key material. */
  lemma SpacesCollide(r: seq<Byte>)
    ensures [[97, 32, 98]] != [[97], [98]]
    ensures KeyMaterial([[97, 32, 98]], r) == KeyMaterial([[97], [98]], r)
  {
    assert [[97], [98]][1..] == [[98]] && [[98]][1..] == [] && [[97, SPACE, 98]][1..] == [];
    assert Frame([[97], [98]]) == [97, SPACE] + Frame([[98]]);
    assert Frame([[98]]) == [98, SPACE];
    assert Frame([[97, SPACE, 98]]) == [97, SPACE, 98, SPACE];
  }

  lemma {:induction false} FrameSnoc(ws: seq<Word>, w: Word)
    ensures Frame(ws + [w]) == Frame(ws) + w + [SPACE]
  {
    FrameAppend(ws, [w]);
    assert [w][1..] == [];
  }

  /** `rerandomize_bip39`, with the system randomness as a parameter. */
  method RerandomizeBip39(hash: seq<Byte> -> seq<Byte>, extract: (seq<Byte>, seq<Byte>) -> seq<Byte>,
                          context: seq<Byte>, words: seq<Word>, random: seq<Byte>, list: seq<Word>)
    returns (r: Option<seq<Word>>)
    requires ValidHash(hash) && ValidList(list) && |random| == 256
    requires forall salt, ikm :: |extract(salt, ikm)| == 32
    ensures r.Some? && |r.value| == 24 && Accepts(hash, WordMap(list), r.value)
    ensures Entropy(WordMap(list), r.value) == extract(hash(context), KeyMaterial(words, random))
  {
    var salt := hash(context);
    var ikm: seq<Byte> := [];
    for i := 0 to |words|
      invariant ikm == Frame(words[..i])
    {
      ikm := ikm + words[i];
      ikm := ikm + [SPACE];
      assert words[..i + 1] == words[..i] + [words[i]];
      FrameSnoc(words[..i], words[i]);
    }
    assert words[..|words|] == words;
    ikm := ikm + random;
    var prk := extract(salt, ikm);
    r := BytesToBip39(hash, prk, list);
    SentenceIsAccepted(hash, list, prk);
  }
}
