/** The lowercase hex encoding `ei_microphone_sample_start` writes into its copy of the
    first sample block: two ASCII characters per digest byte, high nibble first, computed
    by arithmetic instead of a formatting routine. */
module HexPatch {
  import opened Bytes

  const HexAlphabet: string := "0123456789abcdef"

  /** `first >= 10 ? 87 + first : 48 + first`: a digit for 0 to 9, a lower-case letter
      from `a` on for 10 to 15, so that reading the character back gives the nibble. */
  function NibbleChar(n: nat): (c: uint8)
    requires n < 16
    ensures 48 <= c < 58 || 97 <= c < 103
  {
    if n >= 10 then 87 + n else 48 + n
  }

  /** Reading the character back gives the nibble; digits are exactly the nibbles below 10. */
  lemma NibbleCharDecodes(n: nat)
    requires n < 16
    ensures NibbleValue(NibbleChar(n)) == Some(n)
    ensures n < 10 <==> NibbleChar(n) < 58
  {
  }

  /** The arithmetic agrees with the table: nibble `n` becomes the `n`-th character of
      `HexAlphabet`. */
  lemma NibbleCharIsAlphabet(n: nat)
    requires n < 16
    ensures NibbleChar(n) == HexAlphabet[n] as int
  {
    if n == 0 {} else if n == 1 {} else if n == 2 {} else if n == 3 {}
    else if n == 4 {} else if n == 5 {} else if n == 6 {} else if n == 7 {}
    else if n == 8 {} else if n == 9 {} else if n == 10 {} else if n == 11 {}
    else if n == 12 {} else if n == 13 {} else if n == 14 {} else {}
  }

  /** The nibble a lowercase hex character stands for. */
  function NibbleValue(c: uint8): (n: Option<nat>)
    ensures n.Some? ==> n.value < 16
  {
    if 48 <= c < 58 then Some(c - 48)
    else if 97 <= c < 103 then Some(c - 87)
    else None
  }

  /** A byte is its high nibble times 16 plus its low nibble. */
  lemma ByteFromNibbles(b: uint8)
    ensures b / 16 < 16 && (b / 16) * 16 + b % 16 == b
  {
  }

  /** The two characters for one byte: `(b >> 4) & 0xf`, then `b & 0xf`. */
  function ByteHex(b: uint8): (r: seq<uint8>)
    ensures |r| == 2
  {
    [NibbleChar(b / 16), NibbleChar(b % 16)]
  }

  /** The two characters of a byte read back as that byte. */
  lemma ByteHexDecodes(b: uint8)
    ensures HexDecode(ByteHex(b)) == Some([b])
  {
    var r := ByteHex(b);
    ByteFromNibbles(b);
    NibbleCharDecodes(b / 16);
    NibbleCharDecodes(b % 16);
    assert r[..|r| - 2] == [];
    assert HexDecode(r) == Some([] + [(b / 16) * 16 + b % 16]);
    assert [] + [(b / 16) * 16 + b % 16] == [b];
  }

  /** Hex text of a digest, in byte order. */
  function HexEncode(hash: seq<uint8>): (r: seq<uint8>)
    ensures |r| == 2 * |hash|
    decreases |hash|
  {
    if hash == [] then [] else HexEncode(hash[..|hash| - 1]) + ByteHex(hash[|hash| - 1])
  }

  /** Reads hex text back into bytes; fails on a non-hex character or an odd length. */
  function HexDecode(text: seq<uint8>): (r: Option<seq<uint8>>)
    decreases |text|
  {
    if text == [] then Some([])
    else if |text| < 2 then None
    else
      var hi := NibbleValue(text[|text| - 2]);
      var lo := NibbleValue(text[|text| - 1]);
      var rest := HexDecode(text[..|text| - 2]);
      if hi.None? || lo.None? || rest.None? then None
      else Some(rest.value + [hi.value * 16 + lo.value])
  }

  /** Decoding text followed by the two characters of one byte decodes the text, then
      gives that byte. */
  lemma {:induction false} HexDecodeSnoc(text: seq<uint8>, b: uint8)
    ensures HexDecode(text + ByteHex(b)) ==
            if HexDecode(text).Some? then Some(HexDecode(text).value + [b]) else None
  {
    var t := text + ByteHex(b);
    assert t[..|t| - 2] == text;
    ByteFromNibbles(b);
    NibbleCharDecodes(b / 16);
    NibbleCharDecodes(b % 16);
  }

  /** Decoding the hex text of a digest gives the digest back. */
  lemma {:induction false} HexRoundTrip(hash: seq<uint8>)
    ensures HexDecode(HexEncode(hash)) == Some(hash)
    decreases |hash|
  {
    if hash != [] {
      var init := hash[..|hash| - 1];
      var b := hash[|hash| - 1];
      assert HexEncode(hash) == HexEncode(init) + ByteHex(b);
      HexRoundTrip(init);
      HexDecodeSnoc(HexEncode(init), b);
      assert init + [b] == hash;
    }
  }

  /** Byte `i` of the digest lands at `2i` (high nibble) and `2i + 1` (low nibble). */
  lemma {:induction false} HexEncodeAt(hash: seq<uint8>, i: nat)
    requires i < |hash|
    ensures HexEncode(hash)[2 * i] == NibbleChar(hash[i] / 16)
    ensures HexEncode(hash)[2 * i + 1] == NibbleChar(hash[i] % 16)
    decreases |hash|
  {
    if i < |hash| - 1 {
      HexEncodeAt(hash[..|hash| - 1], i);
    }
  }

  /** One turn of the hash-patch loop on values: with the hex of the first `i` digest
      bytes in place, storing the two characters of byte `i` puts the first `i + 1` in
      place. */
  lemma PatchStep(orig: seq<uint8>, signatureIndex: nat, hash: seq<uint8>, i: nat,
                  before: seq<uint8>)
    requires i < |hash| && signatureIndex + 2 * |hash| <= |orig|
    requires before == Overwrite(orig, signatureIndex, HexEncode(hash[..i]))
    ensures before[signatureIndex + 2 * i := NibbleChar(hash[i] / 16)]
                  [signatureIndex + 2 * i + 1 := NibbleChar(hash[i] % 16)]
            == Overwrite(orig, signatureIndex, HexEncode(hash[..i + 1]))
  {
    var encoded := HexEncode(hash[..i]);
    var pair := ByteHex(hash[i]);
    assert hash[..i + 1][..i] == hash[..i];
    assert HexEncode(hash[..i + 1]) == encoded + pair;
    StorePair(before, signatureIndex + 2 * i, pair[0], pair[1]);
    OverwriteAppend(orig, signatureIndex, encoded, pair);
  }

  /** The hash-patch loop: for each digest byte, its two hex characters go to
      `page[signatureIndex + 2i]` and `page[signatureIndex + 2i + 1]`. */
  method PatchSignature(page: array<uint8>, signatureIndex: nat, hash: seq<uint8>)
    requires signatureIndex + 2 * |hash| <= page.Length
    modifies page
    ensures page[..] == Overwrite(old(page[..]), signatureIndex, HexEncode(hash))
  {
    ghost var orig := page[..];
    var hashIx := 0;
    assert hash[..0] == [] && orig[..signatureIndex] + [] + orig[signatureIndex..] == orig;
    while hashIx < |hash|
      invariant 0 <= hashIx <= |hash|
      invariant page[..] == Overwrite(orig, signatureIndex, HexEncode(hash[..hashIx]))
    {
      ghost var before := page[..];
      var first := hash[hashIx] / 16;
      var second := hash[hashIx] % 16;
      var firstC := NibbleChar(first);
      var secondC := NibbleChar(second);
      page[signatureIndex + hashIx * 2 + 0] := firstC;
      page[signatureIndex + hashIx * 2 + 1] := secondC;
      assert page[..] == before[signatureIndex + 2 * hashIx := firstC][signatureIndex + 2 * hashIx + 1 := secondC];
      PatchStep(orig, signatureIndex, hash, hashIx, before);
      assert page[..] == Overwrite(orig, signatureIndex, HexEncode(hash[..hashIx + 1]));
      hashIx := hashIx + 1;
    }
    assert hash[..|hash|] == hash;
  }

  /** After the patch the signature slot holds the digest in hex, and nothing else in the
      page differs. */
  lemma PatchedSlotDecodes(page: seq<uint8>, signatureIndex: nat, hash: seq<uint8>)
    requires signatureIndex + 2 * |hash| <= |page|
    ensures var p := Overwrite(page, signatureIndex, HexEncode(hash));
      && HexDecode(p[signatureIndex..signatureIndex + 2 * |hash|]) == Some(hash)
      && forall k :: 0 <= k < |page| && !(signatureIndex <= k < signatureIndex + 2 * |hash|) ==>
           p[k] == page[k]
  {
    HexRoundTrip(hash);
  }
}
