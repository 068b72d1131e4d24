/** The streaming signer behind `signature_ctx->update/finish` (HMAC-SHA256 over the
    device's HMAC key). Its running digest state is represented by the sequence of every
    byte handed to `update`, in order; the keyed MAC itself is an arbitrary function of
    that sequence fixed when the context is built. */
module Signing {
  import opened Bytes

  /** Bytes of an HMAC-SHA256 digest. */
  const DigestSize: nat := 32

  function ZeroDigest(msg: seq<uint8>): seq<uint8> {
    seq(DigestSize, _ => 0)
  }

  /** A keyed MAC: any function from message to a fixed-size digest. */
  type Mac = f: seq<uint8> -> seq<uint8> | forall msg :: |f(msg)| == DigestSize
    witness ZeroDigest

  class SignatureContext {
    const mac: Mac
    /** Every byte passed to `update` since the context was last initialised. */
    var fed: seq<uint8>
    /** `finish` has been called: the context is spent until the next `Init`. */
    var finished: bool

    constructor (mac: Mac)
      ensures this.mac == mac && fed == [] && !finished
    {
      this.mac := mac;
      fed := [];
      finished := false;
    }

    /** `sensor_aq_init_mbedtls_hs256_context`: arms a fresh accumulator under the key. */
    method Init()
      modifies this
      ensures fed == [] && !finished
    {
      fed := [];
      finished := false;
    }

    method Update(data: seq<uint8>) returns (err: int)
      requires !finished
      modifies this
      ensures fed == old(fed) + data && !finished
      ensures err == 0
    {
      fed := fed + data;
      err := 0;
    }

    /** The digest of everything fed so far; terminal. */
    method Finish() returns (err: int, digest: seq<uint8>)
      requires !finished
      modifies this
      ensures finished && fed == old(fed)
      ensures err == 0 && digest == mac(fed) && |digest| == DigestSize
    {
      finished := true;
      err := 0;
      digest := mac(fed);
    }
  }

  /** The bytes of `chunks`, one after the other. */
  function Concat(chunks: seq<seq<uint8>>): (r: seq<uint8>)
    decreases |chunks|
  {
    if chunks == [] then [] else chunks[0] + Concat(chunks[1..])
  }

  /** The signer's state after one `Update` per chunk, starting from state `fed`. */
  function Absorb(fed: seq<uint8>, chunks: seq<seq<uint8>>): seq<uint8>
    decreases |chunks|
  {
    if chunks == [] then fed else Absorb(fed + chunks[0], chunks[1..])
  }

  /** Feeding chunks one `Update` at a time absorbs exactly their concatenation. */
  lemma {:induction false} AbsorbIsConcat(fed: seq<uint8>, chunks: seq<seq<uint8>>)
    ensures Absorb(fed, chunks) == fed + Concat(chunks)
    decreases |chunks|
  {
    if chunks != [] {
      AbsorbIsConcat(fed + chunks[0], chunks[1..]);
      assert fed + chunks[0] + Concat(chunks[1..]) == fed + (chunks[0] + Concat(chunks[1..]));
    }
  }

  /** Chunk-boundary independence: two ways of cutting the same byte stream into
      `Update` calls give the same digest. */
  lemma ChunkBoundaryIndependence(mac: Mac, c1: seq<seq<uint8>>, c2: seq<seq<uint8>>)
    requires Concat(c1) == Concat(c2)
    ensures mac(Absorb([], c1)) == mac(Absorb([], c2))
  {
    AbsorbIsConcat([], c1);
    AbsorbIsConcat([], c2);
  }
}
