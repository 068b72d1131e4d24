/** The end of the CBOR header built by `create_header`: locating the end of the preamble
    that `sensor_aq_init` left in the 1024-byte CBOR buffer, and the reference tag
    `insert_ref` writes there. The tag is a CBOR text string (major type 3, length in the
    additional-information bits, section 3.1 of RFC 8949) followed by the byte 0xFF, the
    CBOR "break" stop code (section 3.2.1 of RFC 8949). */
module Header {
  import opened Bytes

  const CborBufferSize: nat := 1024

  /** The ASCII codes of a string of ASCII characters. */
  function Ascii(s: string): (r: seq<uint8>)
    requires forall i :: 0 <= i < |s| ==> s[i] as int < 0x80
    ensures |r| == |s|
  {
    seq(|s|, i requires 0 <= i < |s| => s[i] as int)
  }

  const RefName: seq<uint8> := Ascii("Ref-BINARY-i16")

  const Space: uint8 := 0x20
  const Break: uint8 := 0xFF
  /** CBOR major type 3 (text string) in the top three bits of an initial byte. */
  const TextStringHeader: uint8 := 0x60

  /** `EXTRA_BYTES`: the padding that brings `a` up to the next multiple of 4
      (`a & 0x3` is `a % 4` for the non-negative lengths it is given). */
  function ExtraBytes(a: nat): (padding: nat)
    ensures padding <= 3 && (a + padding) % 4 == 0
  {
    if a % 4 != 0 then 4 - a % 4 else a % 4
  }

  /** `n` ASCII spaces. */
  function Spaces(n: nat): (r: seq<uint8>)
    ensures |r| == n && forall k :: 0 <= k < n ==> r[k] == Space
  {
    seq(n, _ => Space)
  }

  /** Length of the tag `insert_ref` writes for a header of `hdrLength` bytes. */
  function RefSize(hdrLength: nat): nat {
    16 + ExtraBytes(hdrLength)
  }

  /** The bytes `insert_ref` writes for a header of `hdrLength` bytes. */
  function RefTag(hdrLength: nat): (r: seq<uint8>)
    ensures |r| == RefSize(hdrLength) && (hdrLength + |r|) % 4 == 0
    ensures r[0] == TextStringHeader + 14 + ExtraBytes(hdrLength)
    ensures r[1..15] == RefName
    ensures forall k :: 15 <= k < |r| - 1 ==> r[k] == Space
    ensures r[|r| - 1] == Break
  {
    var padding := ExtraBytes(hdrLength);
    var head: uint8 := TextStringHeader + 14 + padding;
    var r := [head] + RefName + Spaces(padding) + [Break];
    assert |RefName| == 14 && r[1..15] == RefName;
    r
  }

  /** Decodes a tag: a definite-length CBOR text string whose length sits in the
      additional-information bits, then the break code. Yields the text. */
  function ParseRefTag(b: seq<uint8>): (text: Option<seq<uint8>>)
    ensures text.Some? ==> |b| == |text.value| + 2 && b[1..|b| - 1] == text.value
  {
    if |b| >= 2 && b[0] / 32 == 3 && b[0] % 32 < 24 && |b| == 2 + b[0] % 32
       && b[|b| - 1] == Break
    then Some(b[1..|b| - 1])
    else None
  }

  /** The tag is well-formed CBOR: its header announces exactly the name and the padding
      spaces that follow it, and the break code ends it. */
  lemma RefTagDecodes(hdrLength: nat)
    ensures ParseRefTag(RefTag(hdrLength)) ==
            Some(RefName + Spaces(ExtraBytes(hdrLength)))
  {
    var r := RefTag(hdrLength);
    var p := ExtraBytes(hdrLength);
    assert r[1..|r| - 1] == RefName + Spaces(p);
  }

  /** `insert_ref`: writes the tag for `hdrLength` at `buffer[at..]` byte by byte and
      returns its length. */
  method InsertRef(buffer: array<uint8>, at: nat, hdrLength: nat) returns (addLength: nat)
    requires at + RefSize(hdrLength) <= buffer.Length
    modifies buffer
    ensures addLength == RefSize(hdrLength)
    ensures buffer[..] == Overwrite(old(buffer[..]), at, RefTag(hdrLength))
  {
    ghost var tag, orig := RefTag(hdrLength), buffer[..];
    var padding := ExtraBytes(hdrLength);
    addLength := 0;
    assert orig == Overwrite(orig, at, tag[..0]);
    buffer[at + addLength] := TextStringHeader + 14 + padding;
    TagStep(orig, at, tag, addLength);
    addLength := addLength + 1;
    addLength := CopyName(buffer, at, addLength, orig, tag);
    addLength := CopySpaces(buffer, at, addLength, padding, orig, tag);
    buffer[at + addLength] := Break;
    TagStep(orig, at, tag, addLength);
    addLength := addLength + 1;
    assert tag[..addLength] == tag;
  }

  /** The first loop of `insert_ref`: the name, one byte at a time. */
  method CopyName(buffer: array<uint8>, at: nat, addLength: nat,
                  ghost orig: seq<uint8>, ghost tag: seq<uint8>) returns (next: nat)
    requires |tag| >= 16 && tag[1..15] == RefName && addLength == 1
    requires at + |tag| <= buffer.Length == |orig|
    requires buffer[..] == Overwrite(orig, at, tag[..addLength])
    modifies buffer
    ensures next == 15 && buffer[..] == Overwrite(orig, at, tag[..next])
  {
    next := addLength;
    var i := 0;
    while i < |RefName|
      invariant 0 <= i <= |RefName| && next == 1 + i
      invariant buffer[..] == Overwrite(orig, at, tag[..next])
    {
      assert tag[next] == tag[1..15][i];
      buffer[at + next] := RefName[i];
      TagStep(orig, at, tag, next);
      next := next + 1;
      i := i + 1;
    }
  }

  /** The second loop of `insert_ref`: the padding spaces. */
  method CopySpaces(buffer: array<uint8>, at: nat, addLength: nat, padding: nat,
                    ghost orig: seq<uint8>, ghost tag: seq<uint8>) returns (next: nat)
    requires |tag| == 16 + padding && addLength == 15
    requires forall k :: 15 <= k < |tag| - 1 ==> tag[k] == Space
    requires at + |tag| <= buffer.Length == |orig|
    requires buffer[..] == Overwrite(orig, at, tag[..addLength])
    modifies buffer
    ensures next == 15 + padding && buffer[..] == Overwrite(orig, at, tag[..next])
  {
    next := addLength;
    var i := 0;
    while i < padding
      invariant 0 <= i <= padding && next == 15 + i
      invariant buffer[..] == Overwrite(orig, at, tag[..next])
    {
      buffer[at + next] := Space;
      TagStep(orig, at, tag, next);
      next := next + 1;
      i := i + 1;
    }
  }

  /** With the first `n` bytes of `tag` in place, storing byte `n` puts `n + 1` in place. */
  lemma TagStep(orig: seq<uint8>, at: nat, tag: seq<uint8>, n: nat)
    requires n < |tag| && at + |tag| <= |orig|
    ensures Overwrite(orig, at, tag[..n])[at + n := tag[n]] == Overwrite(orig, at, tag[..n + 1])
  {
    assert tag[..n + 1] == tag[..n] + [tag[n]];
    OverwriteSnoc(orig, at, tag[..n], tag[n]);
  }

  /** The index the end-of-header scan settles on: the greatest index holding a non-zero
      byte, or 0 when there is none. */
  function LastNonZero(s: seq<uint8>): (ix: nat)
    ensures |s| == 0 ==> ix == 0
    ensures |s| > 0 ==> ix < |s|
    ensures forall k :: ix < k < |s| ==> s[k] == 0
    ensures ix > 0 ==> ix < |s| && s[ix] != 0
    decreases |s|
  {
    if |s| == 0 then 0
    else if s[|s| - 1] != 0 then |s| - 1
    else LastNonZero(s[..|s| - 1])
  }

  /** The three properties of `LastNonZero` pin its value down. */
  lemma LastNonZeroUnique(s: seq<uint8>, ix: nat)
    requires |s| == 0 ==> ix == 0
    requires |s| > 0 ==> ix < |s|
    requires forall k :: ix < k < |s| ==> s[k] == 0
    requires ix > 0 ==> ix < |s| && s[ix] != 0
    ensures ix == LastNonZero(s)
  {
  }

  /** The backward scan of `create_header`, stopping at index 0. */
  method FindEndOfHeader(buf: array<uint8>) returns (endIx: nat)
    requires buf.Length > 0
    ensures endIx == LastNonZero(buf[..])
  {
    endIx := 0;
    var ix := buf.Length;
    while ix > 0
      invariant 0 <= ix <= buf.Length
      invariant forall k :: ix <= k < buf.Length ==> buf[k] == 0
    {
      if buf[ix - 1] != 0 {
        endIx := ix - 1;
        LastNonZeroUnique(buf[..], endIx);
        return;
      }
      ix := ix - 1;
    }
    LastNonZeroUnique(buf[..], endIx);
  }

  /** The tag written at the end of the preamble stays inside the CBOR buffer. The source
      does not check this; it relies on `sensor_aq_init` leaving room. */
  predicate HeaderFits(cbor: seq<uint8>) {
    LastNonZero(cbor) + RefSize(LastNonZero(cbor)) <= |cbor|
  }

  /** The header `create_header` persists: the preamble up to (but not including) its
      last non-zero byte, then the tag, which overwrites that byte. */
  function HeaderImage(cbor: seq<uint8>): (h: seq<uint8>)
    requires HeaderFits(cbor)
    ensures |h| == LastNonZero(cbor) + RefSize(LastNonZero(cbor)) && |h| % 4 == 0
    ensures h == Overwrite(cbor, LastNonZero(cbor), RefTag(LastNonZero(cbor)))[..|h|]
  {
    var e := LastNonZero(cbor);
    cbor[..e] + RefTag(e)
  }

  /** Outcome of the scan loop as the source writes it. */
  datatype ScanOutcome = Found(ix: nat) | ReadsOutside(ix: nat)

  const SizeMax: nat := 0xFFFF_FFFF

  /** The scan loop as written: `ix` is a 32-bit `size_t`, so the guard `ix >= 0` never
      fails, and stepping down from 0 wraps the index to `SizeMax`, which the next
      iteration reads. */
  function ScanAsWritten(s: seq<uint8>, ix: nat): (r: ScanOutcome)
    requires ix < |s|
    ensures r.Found? ==> r.ix <= ix && s[r.ix] != 0
    ensures r.ReadsOutside? ==> r.ix == SizeMax
    decreases ix
  {
    if s[ix] != 0 then Found(ix)
    else if ix == 0 then ReadsOutside(SizeMax)
    else ScanAsWritten(s, ix - 1)
  }

  /** With no non-zero byte in the buffer the loop as written reads outside it. */
  lemma {:induction false} AllZeroScanReadsOutside(s: seq<uint8>, ix: nat)
    requires ix < |s| < SizeMax
    requires forall k :: 0 <= k <= ix ==> s[k] == 0
    ensures ScanAsWritten(s, ix) == ReadsOutside(SizeMax) && SizeMax >= |s|
    decreases ix
  {
    if ix > 0 {
      AllZeroScanReadsOutside(s, ix - 1);
    }
  }

  /** Whenever the buffer holds a non-zero byte the loop as written agrees with the
      corrected scan. */
  lemma {:induction false} ScanAsWrittenAgrees(s: seq<uint8>, ix: nat)
    requires ix < |s|
    requires forall k :: ix < k < |s| ==> s[k] == 0
    requires exists k :: 0 <= k <= ix && s[k] != 0
    ensures ScanAsWritten(s, ix) == Found(LastNonZero(s))
    decreases ix
  {
    if s[ix] != 0 {
      LastNonZeroUnique(s, ix);
    } else {
      var k :| 0 <= k <= ix && s[k] != 0;
      assert k < ix;
      ScanAsWrittenAgrees(s, ix - 1);
    }
  }
}
