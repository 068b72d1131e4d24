/** The capture logic of `ei_microphone.cpp`: the sample-count arithmetic, the two DMA
    sinks (logging to the block store with signing, or filling the inference double
    buffer), the header build, and the read-modify-erase-write that patches the digest
    into the first sample block. The module-level statics of the source are the fields
    of one `Microphone` object; interrupt callbacks are sequential method calls. */
module Microphone {
  import opened Bytes
  import opened Flash
  import opened Signing
  import opened Header
  import opened HexPatch
  import opened DoubleBuffer

  /** `AQ_OK`, the success code of `sensor_aq_init`. */
  const AqOk: int := 0
  /** The only rate the PDM driver runs at. */
  const SupportedFrequency: uint32 := 16000
  /** Capacity of `dma_copy_buf` in samples (`256 * 2` bytes). */
  const DmaBufSamples: nat := 256
  /** Bytes erased beyond the payload to make room for the header. */
  const EraseMargin: nat := 4096

  /** Which callback `dma_callback_func` points at. */
  datatype Sink = NoSink | LoggingSink | InferenceSink

  /** `samples_required` from the truncated quotient `q` of length over interval: odd
      counts are bumped by one (in 32 bits) to keep flash writes word aligned. */
  function RoundEven(q: uint32): (r: uint32)
    ensures r % 2 == 0
    ensures r == q <==> q % 2 == 0
    ensures q < 0xFFFF_FFFF ==> r == q || r == q + 1
    ensures q == 0xFFFF_FFFF ==> r == 0
  {
    if q % 2 == 1 then (q + 1) % 0x1_0000_0000 else q
  }

  /** `s << 1` on a `uint32`. */
  function Shl1(s: uint32): (r: uint32)
    ensures s < 0x8000_0000 ==> r == 2 * s
  {
    (2 * s) % 0x1_0000_0000
  }

  /** `(samples_required << 1) + 4096` in 32-bit arithmetic. */
  function EraseLength(s: uint32): (r: uint32)
    ensures Shl1(s) + EraseMargin < 0x1_0000_0000 ==> r == Shl1(s) + EraseMargin
  {
    (Shl1(s) + EraseMargin) % 0x1_0000_0000
  }

  /** `sample <<= 2` on an `int16`: the product wraps into 16 bits. */
  function Scale(x: int16): (r: int16)
    ensures (r - 4 * x) % 0x1_0000 == 0
    ensures -0x2000 <= x < 0x2000 ==> r == 4 * x
  {
    var u := (4 * x) % 0x1_0000;
    if u >= 0x8000 then u - 0x1_0000 else u
  }

  function ScaleAll(xs: seq<int16>): (r: seq<int16>)
    ensures |r| == |xs| && forall i :: 0 <= i < |xs| ==> r[i] == Scale(xs[i])
  {
    seq(|xs|, i requires 0 <= i < |xs| => Scale(xs[i]))
  }

  /** The two bytes of a sample in memory: little-endian two's complement. */
  function SampleBytes(x: int16): (b: seq<uint8>)
    ensures |b| == 2
  {
    var u := x % 0x1_0000;
    [u % 0x100, u / 0x100]
  }

  /** The sample two little-endian bytes stand for. */
  function SampleFromBytes(lo: uint8, hi: uint8): int16 {
    var u := lo + 0x100 * hi;
    if u >= 0x8000 then u - 0x1_0000 else u
  }

  /** Reading a stored sample back gives the sample. */
  lemma SampleBytesRoundTrip(x: int16)
    ensures SampleFromBytes(SampleBytes(x)[0], SampleBytes(x)[1]) == x
  {
    var u := x % 0x1_0000;
    assert u % 0x100 + 0x100 * (u / 0x100) == u;
  }

  /** The byte view of a run of samples (`(uint8_t*)dma_copy_buf`). */
  function LeBytes(xs: seq<int16>): (r: seq<uint8>)
    ensures |r| == 2 * |xs|
    decreases |xs|
  {
    if xs == [] then [] else LeBytes(xs[..|xs| - 1]) + SampleBytes(xs[|xs| - 1])
  }

  /** Sample `i` of a run occupies bytes `2i` and `2i + 1` of its byte view. */
  lemma {:induction false} LeBytesAt(xs: seq<int16>, i: nat)
    requires i < |xs|
    ensures LeBytes(xs)[2 * i..2 * i + 2] == SampleBytes(xs[i])
    decreases |xs|
  {
    if i < |xs| - 1 {
      var init := xs[..|xs| - 1];
      LeBytesAt(init, i);
      assert LeBytes(xs)[..2 * |init|] == LeBytes(init);
      assert LeBytes(xs)[2 * i..2 * i + 2] == LeBytes(init)[2 * i..2 * i + 2];
    }
  }

  /** The bytes one DMA batch hands to the logging callback, after scaling. */
  function ChunkBytes(chunk: seq<int16>): (r: seq<uint8>)
    ensures |r| == 2 * |chunk|
  {
    LeBytes(ScaleAll(chunk))
  }

  /** The bytes a run of DMA batches hands to the logging callback. */
  function StreamBytes(chunks: seq<seq<int16>>): (r: seq<uint8>)
    decreases |chunks|
  {
    if chunks == [] then [] else StreamBytes(chunks[..|chunks| - 1]) + ChunkBytes(chunks[|chunks| - 1])
  }

  /** One more batch extends the stream by that batch's bytes. */
  lemma StreamBytesSnoc(chunks: seq<seq<int16>>, i: nat)
    requires i < |chunks|
    ensures StreamBytes(chunks[..i + 1]) == StreamBytes(chunks[..i]) + ChunkBytes(chunks[i])
  {
    assert chunks[..i + 1][..i] == chunks[..i];
  }

  /** What the logging path reads and writes: the block store, the bytes the signer has
      absorbed, `current_sample` and `record_ready`. */
  datatype LogView = LogView(ram: seq<uint8>, fed: seq<uint8>, count: nat, ready: bool)

  /** `audio_buffer_callback` on values: store `data` at `base + count`, clamped at the
      end of memory, sign all of it, count all of it, and drop `ready` once `count`
      reaches `target`. */
  function LogBytes(v: LogView, base: nat, target: nat, data: seq<uint8>): (r: LogView)
    requires base + v.count <= |v.ram|
    ensures |r.ram| == |v.ram| && r.count == v.count + |data|
  {
    var at := base + v.count;
    var n := Clamp(|data|, |v.ram|, at);
    LogView(Overwrite(v.ram, at, data[..n]), v.fed + data, v.count + |data|,
            v.ready && v.count + |data| < target)
  }

  /** The logging sink's view after each batch of `chunks` went through
      `pdm_data_ready_callback`, when all of them fit in memory. Empty batches are skipped. */
  function LogSteps(v: LogView, base: nat, target: nat, chunks: seq<seq<int16>>): (r: LogView)
    requires base + v.count + |StreamBytes(chunks)| <= |v.ram|
    ensures |r.ram| == |v.ram| && r.count == v.count + |StreamBytes(chunks)|
    decreases |chunks|
  {
    if chunks == [] then v
    else
      var m := LogSteps(v, base, target, chunks[..|chunks| - 1]);
      var last := chunks[|chunks| - 1];
      if last == [] then m else LogBytes(m, base, target, ChunkBytes(last))
  }

  /** Logging a stream that fits stores it contiguously after what was already logged. */
  lemma {:induction false} LogStepsStores(v: LogView, base: nat, target: nat,
                                          chunks: seq<seq<int16>>)
    requires base + v.count + |StreamBytes(chunks)| <= |v.ram|
    ensures LogSteps(v, base, target, chunks).ram ==
            Overwrite(v.ram, base + v.count, StreamBytes(chunks))
    decreases |chunks|
  {
    if chunks == [] {
      assert Overwrite(v.ram, base + v.count, []) == v.ram;
    } else {
      var init, last := chunks[..|chunks| - 1], chunks[|chunks| - 1];
      var si, d := StreamBytes(init), ChunkBytes(last);
      LogStepsStores(v, base, target, init);
      if last == [] {
        assert StreamBytes(chunks) == si;
      } else {
        var m := LogSteps(v, base, target, init);
        assert d[..|d|] == d;
        assert LogSteps(v, base, target, chunks).ram == Overwrite(m.ram, base + v.count + |si|, d);
        OverwriteAppend(v.ram, base + v.count, si, d);
      }
    }
  }

  /** Logging a stream that fits signs exactly the stream, whatever its batches. */
  lemma {:induction false} LogStepsSigns(v: LogView, base: nat, target: nat,
                                         chunks: seq<seq<int16>>)
    requires base + v.count + |StreamBytes(chunks)| <= |v.ram|
    ensures LogSteps(v, base, target, chunks).fed == v.fed + StreamBytes(chunks)
    decreases |chunks|
  {
    if chunks != [] {
      var init, last := chunks[..|chunks| - 1], chunks[|chunks| - 1];
      var si, d := StreamBytes(init), ChunkBytes(last);
      LogStepsSigns(v, base, target, init);
      assert v.fed + si + d == v.fed + (si + d);
    }
  }

  /** `record_ready` survives a stream exactly when it was set and either nothing
      non-empty arrived or the count is still short of the target. */
  lemma {:induction false} LogStepsReady(v: LogView, base: nat, target: nat,
                                         chunks: seq<seq<int16>>)
    requires base + v.count + |StreamBytes(chunks)| <= |v.ram|
    ensures LogSteps(v, base, target, chunks).ready <==>
      v.ready && (|StreamBytes(chunks)| == 0 || v.count + |StreamBytes(chunks)| < target)
    decreases |chunks|
  {
    if chunks != [] {
      LogStepsReady(v, base, target, chunks[..|chunks| - 1]);
    }
  }

  /** One turn of the capture loop on values: while `ready` still holds, one more batch
      through the callback extends the logged view by that batch, and the count before it
      was still short of the target. */
  lemma LogStepsStep(v0: LogView, base: nat, target: nat, chunks: seq<seq<int16>>, c: nat,
                     pre: LogView, post: LogView)
    requires c < |chunks| && v0.count == 0 && |chunks[c]| <= DmaBufSamples
    requires base + |StreamBytes(chunks[..c])| <= |v0.ram|
    requires pre == LogSteps(v0, base, target, chunks[..c]) && pre.ready
    requires base + target + 2 * DmaBufSamples <= |v0.ram|
    requires post == if chunks[c] == [] then pre
                     else LogBytes(pre, base, target, ChunkBytes(chunks[c]))
    ensures base + |StreamBytes(chunks[..c + 1])| <= |v0.ram|
    ensures post == LogSteps(v0, base, target, chunks[..c + 1])
    ensures post.count == pre.count + 2 * |chunks[c]|
    ensures pre.count == 0 || pre.count < target
  {
    LogStepsReady(v0, base, target, chunks[..c]);
    StreamBytesSnoc(chunks, c);
    assert chunks[..c + 1][..c] == chunks[..c];
  }

  /** How a capture that ran until `ready` dropped, over a stream long enough to reach the
      target, leaves the view: the batches taken are stored contiguously at `base`, signed
      in order, counted, and their bytes reach the target. */
  lemma CaptureOutcome(v0: LogView, base: nat, target: nat, chunks: seq<seq<int16>>,
                       consumed: nat, v: LogView)
    requires v0.count == 0 && v0.ready && consumed <= |chunks|
    requires |StreamBytes(chunks)| >= target && |StreamBytes(chunks)| > 0
    requires base + |StreamBytes(chunks[..consumed])| <= |v0.ram|
    requires v == LogSteps(v0, base, target, chunks[..consumed])
    requires v.ready ==> consumed == |chunks|
    ensures !v.ready && consumed > 0
    ensures v.ram == Overwrite(v0.ram, base, StreamBytes(chunks[..consumed]))
    ensures v.fed == v0.fed + StreamBytes(chunks[..consumed])
    ensures v.count == |StreamBytes(chunks[..consumed])| >= target
  {
    var taken := chunks[..consumed];
    LogStepsStores(v0, base, target, taken);
    LogStepsSigns(v0, base, target, taken);
    LogStepsReady(v0, base, target, taken);
    assert consumed == |chunks| ==> taken == chunks;
    assert consumed == 0 ==> taken == [];
  }

  /** The sample area after one recording: `eraseLen` bytes from `u` erased, then the header
      `h` and the logged `stream` stored one after the other at its start. */
  function Recording(ram: seq<uint8>, u: nat, eraseLen: nat, h: seq<uint8>, stream: seq<uint8>)
    : (r: seq<uint8>)
    requires u + eraseLen <= |ram| && |h| + |stream| <= eraseLen
    ensures |r| == |ram|
    ensures r[u..u + |h|] == h && r[u + |h|..u + |h| + |stream|] == stream
    ensures r[u..u + |h| + |stream|] == h + stream
    ensures forall k :: u + |h| + |stream| <= k < u + eraseLen ==> r[k] == 0
    ensures forall k :: 0 <= k < |ram| && !(u <= k < u + eraseLen) ==> r[k] == ram[k]
  {
    var erased := Overwrite(ram, u, Zeros(eraseLen));
    var headed := Overwrite(erased, u, h);
    var r := Overwrite(headed, u + |h|, stream);
    assert r[u..u + |h| + |stream|] == r[u..u + |h|] + r[u + |h|..u + |h| + |stream|];
    r
  }

  /** Logging the stream right after a header stored at the start of an erased area
      gives that recording. */
  lemma RecordingLogged(ram0: seq<uint8>, u: nat, e: nat, h: seq<uint8>, stream: seq<uint8>,
                        headed: seq<uint8>, base: nat, final: seq<uint8>)
    requires u + e <= |ram0| && |h| + |stream| <= e && base == u + |h|
    requires headed == Overwrite(Overwrite(ram0, u, Zeros(e)), u, h)
    requires final == Overwrite(headed, base, stream)
    ensures final == Recording(ram0, u, e, h, stream)
  {
  }

  /** Zeros stored at the start of an erased area change nothing. */
  lemma ErasedPrefix(s: seq<uint8>, u: nat, e: nat, off: nat)
    requires u + e <= |s| && off <= e
    ensures Overwrite(Overwrite(s, u, Zeros(e)), u, Zeros(off)) == Overwrite(s, u, Zeros(e))
  {
    var a := Overwrite(s, u, Zeros(e));
    var b := Overwrite(a, u, Zeros(off));
    forall k | 0 <= k < |s| ensures b[k] == a[k] {
      if u <= k < u + off {
        assert b[k] == b[u..u + off][k - u];
        assert a[k] == a[u..u + e][k - u];
      }
    }
  }

  /** The module-level state of the microphone driver, and the block store, signer and
      inference buffers it works with. */
  class Microphone {
    const mem: FlashMemory
    const signer: SignatureContext
    /** `ei_mic_ctx_buffer`, where the header is built. */
    const cbor: array<uint8>
    const inference: InferenceBuffers
    var recordReady: bool
    var headerOffset: uint32
    var samplesRequired: uint32
    var currentSample: uint32
    var audioSamplingFrequency: uint32
    var sink: Sink
    /** What the signer had absorbed when the header was finished. */
    ghost var hashedHeader: seq<uint8>

    ghost predicate Valid()
      reads this`headerOffset, inference
    {
      && mem.Valid()
      && cbor.Length == CborBufferSize
      && cbor != mem.ram
      && headerOffset <= CborBufferSize
      && inference.Valid()
    }

    /** Sample address 0 lies right after the configuration region; logged bytes start
        right after the header. */
    function LogBase(): nat
      requires Valid()
      reads this`headerOffset, inference
    {
      mem.UsedBytes() + headerOffset
    }

    /** The logging invariant: the signer has absorbed the header followed by the
        `currentSample` bytes stored right after it. */
    ghost predicate Logged()
      reads this, inference, mem.ram, signer
    {
      && Valid()
      && LogBase() + currentSample <= mem.memorySize
      && signer.fed == hashedHeader + mem.ram[LogBase()..LogBase() + currentSample]
      && !signer.finished
    }

    /** How far the recording got: the header bytes `h` sit at sample address 0, the counter
        has passed the target with the `stream` logged after them, all inside the erased
        area, and the signer has absorbed what the header left it followed by the stream. */
    ghost predicate Counted(ram0: seq<uint8>, h: seq<uint8>, stream: seq<uint8>)
      reads this, inference, signer
    {
      && Valid() && !recordReady
      && |ram0| == mem.memorySize as nat
      && headerOffset as nat == |h|
      && currentSample as nat == |stream| && currentSample >= Shl1(samplesRequired)
      && mem.UsedBytes() + EraseLength(samplesRequired) <= mem.memorySize
      && |h| + |stream| <= EraseLength(samplesRequired) as nat
      && signer.fed == hashedHeader + stream
    }

    /** The recording as it stands before the signature: starting from `ram0`, the erased
        sample area holds `h` followed by `stream` and zeros after them. */
    ghost predicate Recorded(ram0: seq<uint8>, h: seq<uint8>, stream: seq<uint8>)
      reads this, inference, mem.ram, signer
    {
      && Counted(ram0, h, stream)
      && mem.ram[..] == Recording(ram0, mem.UsedBytes(), EraseLength(samplesRequired), h, stream)
    }

    /** The finished recording: as `Recorded`, with the signer finished and the hex text of
        its MAC over everything it absorbed stored at `signatureIndex` in the sample area. */
    ghost predicate Signed(ram0: seq<uint8>, h: seq<uint8>, stream: seq<uint8>, signatureIndex: nat)
      reads this, inference, mem.ram, signer
    {
      && Counted(ram0, h, stream) && signer.finished
      && signatureIndex + 2 * DigestSize <= mem.blockSize
      && mem.UsedBytes() + mem.blockSize <= mem.memorySize
      && mem.ram[..] == Overwrite(Recording(ram0, mem.UsedBytes(), EraseLength(samplesRequired), h, stream),
                                  mem.UsedBytes() + signatureIndex, HexEncode(signer.mac(signer.fed)))
    }

    /** When the signer started from the stored header bytes themselves, what it has
        absorbed is exactly what the recording holds from sample address 0 to the end of
        the logged bytes. */
    lemma RecordedSignsStored(ram0: seq<uint8>, h: seq<uint8>, stream: seq<uint8>)
      requires Recorded(ram0, h, stream) && hashedHeader == h
      ensures signer.fed == mem.ram[mem.UsedBytes()..mem.UsedBytes() + headerOffset + currentSample]
    {
    }

    ghost function View(): LogView
      reads this, mem.ram, signer
    {
      LogView(mem.ram[..], signer.fed, currentSample as nat, recordReady)
    }

    /** The statics as the program image starts them, with the zero-filled CBOR buffer and
        the zero-filled inference struct. */
    constructor (mem: FlashMemory, signer: SignatureContext)
      requires mem.Valid()
      ensures Valid() && this.mem == mem && this.signer == signer
      ensures !recordReady && headerOffset == 0 && samplesRequired == 0 && currentSample == 0
      ensures audioSamplingFrequency == SupportedFrequency && sink == NoSink
      ensures fresh(cbor) && cbor[..] == Zeros(CborBufferSize)
    {
      this.mem := mem;
      this.signer := signer;
      cbor := new uint8[CborBufferSize](_ => 0);
      inference := new InferenceBuffers();
      recordReady := false;
      headerOffset := 0;
      samplesRequired := 0;
      currentSample := 0;
      audioSamplingFrequency := SupportedFrequency;
      sink := NoSink;
      hashedHeader := [];
      new;
      assert cbor[..] == Zeros(CborBufferSize);
    }

    /** `audio_buffer_callback`: store the batch after what is already logged, sign it, and
        stop recording once the requested byte count is reached. The store clamps at the
        end of memory; the signer and the counter take the whole batch regardless. */
    method AudioBufferCallback(data: seq<uint8>)
      requires Valid() && !signer.finished
      requires |data| <= 2 * DmaBufSamples
      requires LogBase() + currentSample <= mem.memorySize
      modifies this`currentSample, this`recordReady, mem.ram, signer
      ensures Valid() && !signer.finished
      ensures View() == LogBytes(old(View()), LogBase(), Shl1(samplesRequired) as nat, data)
    {
      assert |mem.ram[..]| == mem.memorySize as nat;
      var n := mem.WriteSampleData(data, headerOffset + currentSample, |data|);
      var err := signer.Update(data);
      currentSample := currentSample + |data|;
      if currentSample >= Shl1(samplesRequired) {
        recordReady := false;
      }
    }

    /** `pdm_data_ready_callback` for one batch the driver delivers: an empty batch does
        nothing; otherwise every sample is scaled by four and the batch goes to the
        callback the current session installed. */
    method PdmDataReady(chunk: seq<int16>)
      requires Valid() && !signer.finished
      requires |chunk| <= DmaBufSamples
      requires chunk != [] ==> sink != NoSink
      requires chunk != [] && sink == LoggingSink ==> LogBase() + currentSample <= mem.memorySize
      requires chunk != [] && sink == InferenceSink ==> inference.nSamples > 0
      modifies this`currentSample, this`recordReady, mem.ram, signer
      modifies if sink == InferenceSink then {inference, inference.buf0, inference.buf1} else {}
      ensures Valid() && !signer.finished
      ensures chunk == [] || sink == InferenceSink ==> View() == old(View())
      ensures chunk == [] ==> unchanged(inference) && inference.State() == old(inference.State())
      ensures chunk != [] && sink == LoggingSink ==>
        View() == LogBytes(old(View()), LogBase(), Shl1(samplesRequired) as nat, ChunkBytes(chunk))
      ensures chunk != [] && sink == InferenceSink ==>
        && inference.buf0 == old(inference.buf0) && inference.buf1 == old(inference.buf1)
        && inference.nSamples == old(inference.nSamples)
        && inference.State() == PushAll(old(inference.State()), ScaleAll(chunk))
    {
      if |chunk| != 0 {
        var scaled := ScaleAll(chunk);
        if sink == LoggingSink {
          AudioBufferCallback(LeBytes(scaled));
        } else if sink == InferenceSink {
          inference.Callback(scaled, 2 * |chunk|);
          assert scaled[..2 * |chunk| / 2] == scaled;
        }
      }
    }

    /** The middle of `create_header`: take the preamble `sensor_aq_init` leaves in the
        CBOR buffer and the bytes it signs, find the preamble's last non-zero byte, and,
        if there is one, overwrite it with the reference tag and sign the tag. Returns the
        header length, or 0 when the scan finds nothing. */
    /** The middle of `create_header`: what `sensor_aq_init` leaves behind, its result
        checked, then the scan and the reference tag over the last non-zero byte, signed
        as written. Returns the header length, or 0 when `sensor_aq_init` failed or the
        scan finds no end of header. */
    method TagPreamble(initResult: int, preamble: seq<uint8>, initSigned: seq<uint8>)
      returns (len: nat)
      requires cbor.Length == CborBufferSize && |preamble| == CborBufferSize
      requires (initResult == AqOk ==> HeaderFits(preamble)) && signer.fed == []
      requires !signer.finished
      modifies cbor, signer
      ensures !signer.finished
      ensures len <= CborBufferSize
      ensures len == 0 <==> !(initResult == AqOk && LastNonZero(preamble) != 0)
      ensures len == 0 ==> cbor[..] == preamble && signer.fed == initSigned
      ensures len != 0 ==>
        var e := LastNonZero(preamble);
        && len == |HeaderImage(preamble)|
        && cbor[..] == Overwrite(preamble, e, RefTag(e))
        && cbor[..len] == HeaderImage(preamble)
        && signer.fed == initSigned + RefTag(e)
    {
      LoadPreamble(preamble, initSigned);
      if initResult != AqOk {
        return 0;
      }
      var endIx := FindEndOfHeader(cbor);
      if endIx == 0 {
        return 0;
      }
      len := AppendRef(endIx);
      ghost var tagged := cbor[..];
      assert HeaderImage(preamble) == tagged[..len];
      assert cbor[..len] == tagged[..len];
    }

    /** What `sensor_aq_init` leaves behind, whatever it returns: the preamble in the CBOR
        buffer and the bytes it signed in the signer. Both are inputs of the model. */
    method LoadPreamble(preamble: seq<uint8>, initSigned: seq<uint8>)
      requires cbor.Length == CborBufferSize && |preamble| == CborBufferSize
      requires !signer.finished
      modifies cbor, signer
      ensures cbor[..] == preamble
      ensures signer.fed == old(signer.fed) + initSigned && !signer.finished
    {
      forall k | 0 <= k < cbor.Length {
        cbor[k] := preamble[k];
      }
      assert cbor[..] == preamble;
      var err := signer.Update(initSigned);
    }

    /** The second half: the reference tag over the byte at `endIx`, signed as written.
        Returns the header length. */
    method AppendRef(endIx: nat) returns (len: nat)
      requires cbor.Length == CborBufferSize && !signer.finished
      requires endIx + RefSize(endIx) <= CborBufferSize
      modifies cbor, signer
      ensures len == endIx + RefSize(endIx)
      ensures cbor[..] == Overwrite(old(cbor[..]), endIx, RefTag(endIx))
      ensures signer.fed == old(signer.fed) + RefTag(endIx) && !signer.finished
    {
      var refSize := InsertRef(cbor, endIx, endIx);
      ghost var tagged := cbor[..];
      assert cbor[endIx..endIx + refSize] == RefTag(endIx);
      var err := signer.Update(cbor[endIx..endIx + refSize]);
      assert cbor[..] == tagged;
      len := endIx + refSize;
    }

    /** `create_header`: arm the signer, build the header in the CBOR buffer, and store
        it at sample address 0, failing if the store comes back short. */
    method CreateHeader(initResult: int, preamble: seq<uint8>, initSigned: seq<uint8>)
      returns (ok: bool)
      requires Valid() && |preamble| == CborBufferSize
      requires initResult == AqOk ==> HeaderFits(preamble)
      modifies this`headerOffset, cbor, signer, mem.ram
      ensures Valid() && !signer.finished
      ensures ok <==> initResult == AqOk && LastNonZero(preamble) != 0
                      && mem.UsedBytes() + |HeaderImage(preamble)| <= mem.memorySize
      ensures !(initResult == AqOk && LastNonZero(preamble) != 0) ==>
        && signer.fed == initSigned && cbor[..] == preamble && mem.ram[..] == old(mem.ram[..])
      ensures initResult == AqOk && LastNonZero(preamble) != 0 ==>
        var e := LastNonZero(preamble);
        var h := HeaderImage(preamble);
        && signer.fed == initSigned + RefTag(e)
        && cbor[..] == Overwrite(preamble, e, RefTag(e))
        && mem.ram[..] == Overwrite(old(mem.ram[..]), mem.UsedBytes(),
                                    h[..Clamp(|h|, mem.memorySize, mem.UsedBytes())])
      ensures ok ==> headerOffset as nat == |HeaderImage(preamble)| && headerOffset % 4 == 0
      ensures !ok ==> headerOffset == old(headerOffset)
    {
      signer.Init();
      var len := TagPreamble(initResult, preamble, initSigned);
      if len == 0 {
        return false;
      }
      ghost var h := HeaderImage(preamble);
      assert cbor[..len] == h;
      ok := StoreHeader(len);
    }

    /** The end of `create_header`: store the first `len` bytes of the CBOR buffer at sample
        address 0 and, unless the store comes back short, record them as the header. */
    method StoreHeader(len: nat) returns (ok: bool)
      requires Valid() && len <= CborBufferSize
      modifies this`headerOffset, mem.ram
      ensures Valid()
      ensures ok <==> mem.UsedBytes() + len <= mem.memorySize
      ensures mem.ram[..] == Overwrite(old(mem.ram[..]), mem.UsedBytes(),
                                       cbor[..len][..Clamp(len, mem.memorySize, mem.UsedBytes())])
      ensures ok ==> headerOffset as nat == len
      ensures !ok ==> headerOffset == old(headerOffset)
    {
      var n := mem.WriteSampleData(cbor[..], 0, len);
      assert cbor[..][..n] == cbor[..len][..n];
      if n != len {
        return false;
      }
      headerOffset := len;
      ok := true;
    }

    /** `ei_microphone_record`: erase room for the samples and the header, failing if the
        erase comes back short, then build the header. A failed header does not fail the
        recording. The start delay and messages are not modelled. */
    method Record(initResult: int, preamble: seq<uint8>, initSigned: seq<uint8>)
      returns (ok: bool, ghost headerOk: bool)
      requires Valid() && |preamble| == CborBufferSize
      requires initResult == AqOk ==> HeaderFits(preamble)
      modifies this`headerOffset, this`hashedHeader, cbor, signer, mem.ram
      ensures Valid()
      ensures ok <==> mem.UsedBytes() + EraseLength(samplesRequired) <= mem.memorySize
      ensures !ok ==> && !headerOk && unchanged(signer) && cbor[..] == old(cbor[..])
                      && headerOffset == old(headerOffset) && hashedHeader == old(hashedHeader)
                      && mem.ram[..] == Overwrite(old(mem.ram[..]), mem.UsedBytes(),
                           Zeros(Clamp(EraseLength(samplesRequired), mem.memorySize, mem.UsedBytes())))
      ensures ok ==> hashedHeader == signer.fed && !signer.finished
      ensures ok ==> (headerOk <==> initResult == AqOk && LastNonZero(preamble) != 0
                                    && mem.UsedBytes() + |HeaderImage(preamble)| <= mem.memorySize)
      ensures ok && !(initResult == AqOk && LastNonZero(preamble) != 0) ==>
        && headerOffset == old(headerOffset)
        && signer.fed == initSigned
        && mem.ram[..] == Overwrite(old(mem.ram[..]), mem.UsedBytes(),
                                    Zeros(EraseLength(samplesRequired)))
      ensures ok && headerOk ==>
        && headerOffset as nat == |HeaderImage(preamble)|
        && signer.fed == initSigned + RefTag(LastNonZero(preamble))
        && mem.ram[..] == Overwrite(Overwrite(old(mem.ram[..]), mem.UsedBytes(),
                                              Zeros(EraseLength(samplesRequired))),
                                    mem.UsedBytes(), HeaderImage(preamble))
    {
      var erased := mem.EraseSampleData(0, EraseLength(samplesRequired));
      if erased != EraseLength(samplesRequired) {
        return false, false;
      }
      ghost var erasedRam := mem.ram[..];
      assert erasedRam == Overwrite(old(mem.ram[..]), mem.UsedBytes(),
                                    Zeros(EraseLength(samplesRequired)));
      headerOk := CreateHeader(initResult, preamble, initSigned);
      if headerOk {
        ghost var h := HeaderImage(preamble);
        assert mem.ram[..] == Overwrite(erasedRam, mem.UsedBytes(), h) by {
          assert Clamp(|h|, mem.memorySize, mem.UsedBytes()) == |h| && h[..|h|] == h;
        }
      }
      hashedHeader := signer.fed;
      ok := true;
    }

    /** One batch through `pdm_data_ready_callback` while the logging callback is
        installed: an empty batch changes nothing, any other is logged. */
    method LogBatch(chunk: seq<int16>)
      requires Valid() && !signer.finished && sink == LoggingSink
      requires |chunk| <= DmaBufSamples && LogBase() + currentSample <= mem.memorySize
      modifies this`currentSample, this`recordReady, mem.ram, signer
      ensures Valid() && !signer.finished
      ensures View() == if chunk == [] then old(View())
                        else LogBytes(old(View()), LogBase(), Shl1(samplesRequired) as nat,
                                      ChunkBytes(chunk))
    {
      PdmDataReady(chunk);
    }

    /** The polling loop of `ei_microphone_sample_start`: hand the driver's batches to the
        logging callback until it clears `recordReady`. `chunks` are the batches the driver
        delivers, in order; the result is how many of them were taken. */
    method Capture(chunks: seq<seq<int16>>) returns (consumed: nat, ghost before: nat)
      requires Valid() && !signer.finished && recordReady && sink == LoggingSink
      requires currentSample == 0
      requires forall i :: 0 <= i < |chunks| ==> |chunks[i]| <= DmaBufSamples
      requires LogBase() + Shl1(samplesRequired) + 2 * DmaBufSamples <= mem.memorySize
      modifies this`currentSample, this`recordReady, mem.ram, signer
      ensures Valid() && !signer.finished && consumed <= |chunks|
      ensures LogBase() + |StreamBytes(chunks[..consumed])| <= mem.memorySize
      ensures View() == LogSteps(old(View()), LogBase(), Shl1(samplesRequired) as nat,
                                 chunks[..consumed])
      ensures recordReady ==> consumed == |chunks|
      ensures consumed > 0 ==> currentSample as nat == before + 2 * |chunks[consumed - 1]|
      ensures before == 0 || before < Shl1(samplesRequired) as nat
    {
      ghost var base, target, v0 := LogBase(), Shl1(samplesRequired) as nat, View();
      consumed, before := 0, 0;
      while recordReady && consumed < |chunks|
        invariant consumed <= |chunks|
        invariant Valid() && !signer.finished && LogBase() == base
        invariant base + |StreamBytes(chunks[..consumed])| <= mem.memorySize
        invariant View() == LogSteps(v0, base, target, chunks[..consumed])
        invariant consumed > 0 ==> currentSample as nat == before + 2 * |chunks[consumed - 1]|
        invariant before == 0 || before < target
      {
        before := CaptureTurn(chunks, consumed, v0, base, target);
        consumed := consumed + 1;
      }
    }

    /** One turn of the polling loop: batch `c` goes through the callback and extends the
        logged view by that batch. `before` is the count the callback found. */
    method CaptureTurn(chunks: seq<seq<int16>>, c: nat, ghost v0: LogView, ghost base: nat,
                       ghost target: nat) returns (ghost before: nat)
      requires Valid() && !signer.finished && recordReady && sink == LoggingSink
      requires LogBase() == base && target == Shl1(samplesRequired) as nat
      requires c < |chunks| && |chunks[c]| <= DmaBufSamples
      requires v0.count == 0 && |v0.ram| == mem.memorySize as nat
      requires base + target + 2 * DmaBufSamples <= |v0.ram|
      requires base + |StreamBytes(chunks[..c])| <= |v0.ram|
      requires View() == LogSteps(v0, base, target, chunks[..c])
      modifies this`currentSample, this`recordReady, mem.ram, signer
      ensures Valid() && !signer.finished && LogBase() == base
      ensures base + |StreamBytes(chunks[..c + 1])| <= |v0.ram|
      ensures View() == LogSteps(v0, base, target, chunks[..c + 1])
      ensures currentSample as nat == before + 2 * |chunks[c]|
      ensures before == 0 || before < target
    {
      ghost var pre := View();
      LogBatch(chunks[c]);
      LogStepsStep(v0, base, target, chunks, c, pre, View());
      before := pre.count;
    }

    /** The tail of `ei_microphone_sample_start`: finish the signature, then patch its hex
        text into the first sample block. `pageAllocOk` is the outcome of allocating the
        page buffer. */
    method FinalizeSignature(signatureIndex: nat, pageAllocOk: bool)
      returns (ok: bool, digest: seq<uint8>)
      requires Valid() && !signer.finished
      requires signatureIndex + 2 * DigestSize <= mem.blockSize
      modifies signer, mem.ram
      ensures signer.finished && signer.fed == old(signer.fed)
      ensures digest == signer.mac(old(signer.fed)) && |digest| == DigestSize
      ensures ok <==> pageAllocOk && mem.UsedBytes() + mem.blockSize <= mem.memorySize
      ensures ok ==> mem.ram[..] == Overwrite(old(mem.ram[..]), mem.UsedBytes() + signatureIndex,
                                              HexEncode(digest))
      ensures !ok ==> mem.ram[..] == old(mem.ram[..])
    {
      ghost var ram0 := mem.ram[..];
      var err;
      err, digest := signer.Finish();
      assert mem.ram[..] == ram0;
      if !pageAllocOk {
        return false, digest;
      }
      var page := new uint8[mem.blockSize];
      ok := PatchFirstBlock(page, signatureIndex, digest);
    }

    /** `FinalizeSignature` over a finished recording: either the hex text of the MAC ends
        up in the first sample block, or the recording stays as it was. */
    method Seal(ghost ram0: seq<uint8>, ghost h: seq<uint8>, ghost stream: seq<uint8>,
                signatureIndex: nat, pageAllocOk: bool) returns (ok: bool)
      requires Recorded(ram0, h, stream) && !signer.finished
      requires signatureIndex + 2 * DigestSize <= mem.blockSize
      modifies signer, mem.ram
      ensures signer.finished && hashedHeader == old(hashedHeader) && currentSample == old(currentSample)
      ensures ok <==> pageAllocOk && mem.UsedBytes() + mem.blockSize <= mem.memorySize
      ensures ok ==> Signed(ram0, h, stream, signatureIndex)
      ensures !ok ==> Recorded(ram0, h, stream)
    {
      var digest;
      ok, digest := FinalizeSignature(signatureIndex, pageAllocOk);
    }

    /** Read the first sample block into `page`, write `digest` into it as lower-case hex at
        `signatureIndex` (the offset `sensor_aq_init` reports), then erase the block and
        write the page back. Fails, changing nothing, when the read comes back short. */
    method PatchFirstBlock(page: array<uint8>, signatureIndex: nat, digest: seq<uint8>)
      returns (ok: bool)
      requires mem.Valid() && page != mem.ram && page.Length == mem.blockSize as nat
      requires signatureIndex + 2 * |digest| <= mem.blockSize
      modifies page, mem.ram
      ensures ok <==> mem.UsedBytes() + mem.blockSize <= mem.memorySize
      ensures ok ==> mem.ram[..] == Overwrite(old(mem.ram[..]), mem.UsedBytes() + signatureIndex,
                                              HexEncode(digest))
      ensures !ok ==> mem.ram[..] == old(mem.ram[..])
    {
      ghost var ram0 := mem.ram[..];
      ok := ReadFirstBlock(page);
      if !ok {
        return;
      }
      ghost var u: nat := mem.UsedBytes();
      assert mem.ram[..] == ram0;
      PatchSignature(page, signatureIndex, digest);
      ghost var patched := page[..];
      assert mem.ram[..] == ram0;
      RewriteFirstBlock(page);
      assert mem.ram[..] == Overwrite(ram0, u, patched);
      OverwriteNested(ram0, u, mem.blockSize as nat, signatureIndex, HexEncode(digest));
    }

    /** The read of the first sample block into `page`, which comes back short exactly when
        the block does not fit in memory. */
    method ReadFirstBlock(page: array<uint8>) returns (ok: bool)
      requires mem.Valid() && page != mem.ram && page.Length == mem.blockSize as nat
      modifies page
      ensures ok <==> mem.UsedBytes() + mem.blockSize <= mem.memorySize
      ensures ok ==> page[..] == mem.ram[mem.UsedBytes()..mem.UsedBytes() + mem.blockSize]
    {
      var j := mem.ReadSampleData(page, 0, mem.blockSize);
      ok := j == mem.blockSize;
    }

    /** The erase-then-write of the patched page over the first sample block. Neither can
        come back short here, since the block lies inside memory. */
    method RewriteFirstBlock(page: array<uint8>)
      requires mem.Valid() && page != mem.ram && page.Length == mem.blockSize as nat
      requires mem.UsedBytes() + mem.blockSize <= mem.memorySize
      modifies mem.ram
      ensures mem.ram[..] == Overwrite(old(mem.ram[..]), mem.UsedBytes(), page[..])
    {
      ghost var ram0 := mem.ram[..];
      var j := mem.EraseSampleData(0, mem.blockSize);
      if j != mem.blockSize {
        assert false;
      }
      j := mem.WriteSampleData(page[..], 0, mem.blockSize);
      if j != mem.blockSize {
        assert false;
      }
      assert page[..][..j] == page[..];
      OverwriteTwice(ram0, mem.UsedBytes(), Zeros(mem.blockSize as nat), page[..]);
    }

    /** The set-up of `ei_microphone_sample_start` up to the recording: the rounded sample
        count, the reset counter, the rate check, the logging callback, the DMA buffer
        allocation (outcome `dmaAllocOk`) and the driver start (error `pdmErr`). */
    method Prepare(q: uint32, frequency: uint32, dmaAllocOk: bool, pdmErr: int)
      returns (ok: bool)
      modifies this`samplesRequired, this`currentSample, this`audioSamplingFrequency, this`sink
      ensures samplesRequired == RoundEven(q) && currentSample == 0
      ensures audioSamplingFrequency == frequency
      ensures sink == if frequency == SupportedFrequency then LoggingSink else old(sink)
      ensures ok <==> frequency == SupportedFrequency && dmaAllocOk && pdmErr == 0
      ensures headerOffset == old(headerOffset) && mem.ram[..] == old(mem.ram[..])
    {
      samplesRequired := RoundEven(q);
      currentSample := 0;
      audioSamplingFrequency := frequency;
      if audioSamplingFrequency != SupportedFrequency {
        return false;
      }
      sink := LoggingSink;
      if !dmaAllocOk {
        return false;
      }
      if pdmErr != 0 {
        return false;
      }
      ok := true;
    }

    /** The recording phase of `ei_microphone_sample_start`: raise `recordReady` and run
        the polling loop over a stream long enough to reach the target. */
    method Collect(chunks: seq<seq<int16>>) returns (consumed: nat, ghost before: nat)
      requires Valid() && !signer.finished && sink == LoggingSink && currentSample == 0
      requires forall i :: 0 <= i < |chunks| ==> |chunks[i]| <= DmaBufSamples
      requires LogBase() + Shl1(samplesRequired) + 2 * DmaBufSamples <= mem.memorySize
      requires |StreamBytes(chunks)| >= Shl1(samplesRequired) as nat && |StreamBytes(chunks)| > 0
      modifies this`currentSample, this`recordReady, mem.ram, signer
      ensures Valid() && !signer.finished && !recordReady && 0 < consumed <= |chunks|
      ensures LogBase() + |StreamBytes(chunks[..consumed])| <= mem.memorySize
      ensures mem.ram[..] == Overwrite(old(mem.ram[..]), LogBase(), StreamBytes(chunks[..consumed]))
      ensures signer.fed == old(signer.fed) + StreamBytes(chunks[..consumed])
      ensures currentSample as nat == |StreamBytes(chunks[..consumed])| >= Shl1(samplesRequired) as nat
      ensures currentSample as nat == before + 2 * |chunks[consumed - 1]|
      ensures before == 0 || before < Shl1(samplesRequired) as nat
      ensures currentSample as nat <= Shl1(samplesRequired) as nat + 2 * DmaBufSamples
    {
      recordReady := true;
      ghost var base, v0 := LogBase(), View();
      consumed, before := Capture(chunks);
      CaptureOutcome(v0, base, Shl1(samplesRequired) as nat, chunks, consumed, View());
    }

    /** `ei_microphone_record` followed by the recording phase, for a sample count whose
        erase length does not wrap. `h` is what precedes the logged bytes in the sample
        area: the header image, or the erased bytes up to the old `headerOffset` when
        `create_header` failed. */
    method Acquire(initResult: int, preamble: seq<uint8>, initSigned: seq<uint8>,
                   chunks: seq<seq<int16>>)
      returns (ok: bool, ghost headerOk: bool, ghost consumed: nat, ghost h: seq<uint8>)
      requires Valid() && sink == LoggingSink && currentSample == 0
      requires Shl1(samplesRequired) as nat + EraseMargin < 0x1_0000_0000
      requires |preamble| == CborBufferSize && (initResult == AqOk ==> HeaderFits(preamble))
      requires forall i :: 0 <= i < |chunks| ==> |chunks[i]| <= DmaBufSamples
      requires |StreamBytes(chunks)| >= Shl1(samplesRequired) as nat && |StreamBytes(chunks)| > 0
      modifies this`headerOffset, this`hashedHeader, this`currentSample, this`recordReady
      modifies cbor, signer, mem.ram
      ensures Valid()
      ensures ok <==> mem.UsedBytes() + EraseLength(samplesRequired) <= mem.memorySize
      ensures !ok ==> mem.ram[..] == Overwrite(old(mem.ram[..]), mem.UsedBytes(),
                        Zeros(Clamp(EraseLength(samplesRequired), mem.memorySize, mem.UsedBytes())))
      ensures headerOk ==> initResult == AqOk && HeaderFits(preamble) && LastNonZero(preamble) != 0
      ensures ok ==> (headerOk <==> initResult == AqOk && LastNonZero(preamble) != 0)
      ensures ok ==> h == if headerOk then HeaderImage(preamble) else Zeros(old(headerOffset) as nat)
      ensures ok ==> hashedHeader == if headerOk then initSigned + RefTag(LastNonZero(preamble))
                                     else initSigned
      ensures ok ==> && !signer.finished && 0 < consumed <= |chunks|
                     && Recorded(old(mem.ram[..]), h, StreamBytes(chunks[..consumed]))
      ensures ok ==> var b := |StreamBytes(chunks[..consumed - 1])|;
                     && (b == 0 || b < Shl1(samplesRequired) as nat)
                     && currentSample as nat <= Shl1(samplesRequired) as nat + 2 * DmaBufSamples
      ensures ok ==> Logged()
      ensures ok && headerOk && initSigned == preamble[..LastNonZero(preamble)] ==> hashedHeader == h
    {
      consumed := 0;
      ok, headerOk, h := Arm(initResult, preamble, initSigned);
      if !ok {
        return;
      }
      consumed := LogSession(chunks, old(mem.ram[..]), h);
    }

    /** `ei_microphone_record` for an erase length that does not wrap, with what it leaves
        behind named: `h` is the header at the start of the erased area, which is the
        header image when `create_header` succeeded and erased bytes up to the old
        `headerOffset` when it did not. */
    method Arm(initResult: int, preamble: seq<uint8>, initSigned: seq<uint8>)
      returns (ok: bool, ghost headerOk: bool, ghost h: seq<uint8>)
      requires Valid() && Shl1(samplesRequired) as nat + EraseMargin < 0x1_0000_0000
      requires |preamble| == CborBufferSize && (initResult == AqOk ==> HeaderFits(preamble))
      modifies this`headerOffset, this`hashedHeader, cbor, signer, mem.ram
      ensures Valid()
      ensures ok <==> mem.UsedBytes() + EraseLength(samplesRequired) <= mem.memorySize
      ensures !ok ==> mem.ram[..] == Overwrite(old(mem.ram[..]), mem.UsedBytes(),
                        Zeros(Clamp(EraseLength(samplesRequired), mem.memorySize, mem.UsedBytes())))
      ensures headerOk ==> initResult == AqOk && HeaderFits(preamble) && LastNonZero(preamble) != 0
      ensures ok ==> (headerOk <==> initResult == AqOk && LastNonZero(preamble) != 0)
      ensures ok ==> && !signer.finished && hashedHeader == signer.fed
                     && hashedHeader == if headerOk then initSigned + RefTag(LastNonZero(preamble))
                                        else initSigned
      ensures ok ==> && h == (if headerOk then HeaderImage(preamble)
                              else Zeros(old(headerOffset) as nat))
                     && headerOffset as nat == |h| && |h| <= CborBufferSize
      ensures ok && headerOk && initSigned == preamble[..LastNonZero(preamble)] ==> hashedHeader == h
      ensures ok ==> mem.ram[..] == Overwrite(Overwrite(old(mem.ram[..]), mem.UsedBytes(),
                                                        Zeros(EraseLength(samplesRequired))),
                                              mem.UsedBytes(), h)
    {
      assert EraseLength(samplesRequired) == Shl1(samplesRequired) + EraseMargin;
      assert initResult == AqOk ==> |HeaderImage(preamble)| <= CborBufferSize;
      h := [];
      ok, headerOk := Record(initResult, preamble, initSigned);
      if !ok {
        return;
      }
      h := if headerOk then HeaderImage(preamble) else Zeros(headerOffset as nat);
      if !headerOk {
        ErasedPrefix(old(mem.ram[..]), mem.UsedBytes() as nat, EraseLength(samplesRequired) as nat,
                     headerOffset as nat);
      }
    }

    /** The recording phase over an area erased from sample address 0 with the header `h`
        stored at its start: the logged stream lands right after the header, inside the
        erased length, and the loop stops at the first batch that reaches the target. */
    method LogSession(chunks: seq<seq<int16>>, ghost ram0: seq<uint8>, ghost h: seq<uint8>)
      returns (consumed: nat)
      requires Valid() && !signer.finished && sink == LoggingSink && currentSample == 0
      requires Shl1(samplesRequired) as nat + EraseMargin < 0x1_0000_0000
      requires mem.UsedBytes() + EraseLength(samplesRequired) <= mem.memorySize
      requires forall i :: 0 <= i < |chunks| ==> |chunks[i]| <= DmaBufSamples
      requires |StreamBytes(chunks)| >= Shl1(samplesRequired) as nat && |StreamBytes(chunks)| > 0
      requires |ram0| == mem.memorySize as nat && headerOffset as nat == |h|
      requires signer.fed == hashedHeader
      requires mem.ram[..] == Overwrite(Overwrite(ram0, mem.UsedBytes(),
                                                  Zeros(EraseLength(samplesRequired))),
                                        mem.UsedBytes(), h)
      modifies this`currentSample, this`recordReady, mem.ram, signer
      ensures !signer.finished && 0 < consumed <= |chunks| && hashedHeader == old(hashedHeader)
      ensures Recorded(ram0, h, StreamBytes(chunks[..consumed]))
      ensures var b := |StreamBytes(chunks[..consumed - 1])|;
              && (b == 0 || b < Shl1(samplesRequired) as nat)
              && currentSample as nat <= Shl1(samplesRequired) as nat + 2 * DmaBufSamples
      ensures Logged()
    {
      assert EraseLength(samplesRequired) == Shl1(samplesRequired) + EraseMargin;
      ghost var headed := mem.ram[..];
      ghost var before: nat;
      consumed, before := Collect(chunks);
      StreamBytesSnoc(chunks, consumed - 1);
      RecordingLogged(ram0, mem.UsedBytes() as nat, EraseLength(samplesRequired) as nat, h,
                      StreamBytes(chunks[..consumed]), headed, LogBase(), mem.ram[..]);
    }

    /** What a started session leaves behind, from the memory `ram0` and header offset
        `offset0` it started with. An erase that comes back short leaves the clamped erase
        and nothing else. Otherwise the header was built exactly when `sensor_aq_init`
        succeeded and its preamble holds a non-zero byte, `h` is the header image or the
        erased bytes up to the old offset, the loop stopped at the first batch that reached
        the target, the signer is finished, and the recording is in memory: signed when
        `ok`, without its signature when the page buffer or the first block was missing. */
    ghost predicate SessionOutcome(ram0: seq<uint8>, offset0: uint32, initResult: int,
                                   preamble: seq<uint8>, initSigned: seq<uint8>,
                                   chunks: seq<seq<int16>>, signatureIndex: nat, ok: bool,
                                   headerOk: bool, consumed: nat, h: seq<uint8>)
      reads this, inference, mem.ram, signer
    {
      && Valid() && |preamble| == CborBufferSize
      && if mem.UsedBytes() + EraseLength(samplesRequired) > mem.memorySize then
           && |ram0| == mem.memorySize as nat
           && mem.ram[..] == Overwrite(ram0, mem.UsedBytes(),
                Zeros(Clamp(EraseLength(samplesRequired), mem.memorySize, mem.UsedBytes())))
         else
           && (headerOk <==> initResult == AqOk && LastNonZero(preamble) != 0)
           && (headerOk ==> HeaderFits(preamble))
           && h == (if headerOk then HeaderImage(preamble) else Zeros(offset0 as nat))
           && hashedHeader == (if headerOk then initSigned + RefTag(LastNonZero(preamble))
                               else initSigned)
           && 0 < consumed <= |chunks| && signer.finished
           && (var b := |StreamBytes(chunks[..consumed - 1])|;
               && (b == 0 || b < Shl1(samplesRequired) as nat)
               && currentSample as nat <= Shl1(samplesRequired) as nat + 2 * DmaBufSamples)
           && if ok then Signed(ram0, h, StreamBytes(chunks[..consumed]), signatureIndex)
              else Recorded(ram0, h, StreamBytes(chunks[..consumed]))
    }

    /** `ei_microphone_record`, the recording phase and `FinalizeSignature`, in the order
        `ei_microphone_sample_start` runs them once the driver is started. */
    method RecordAndSign(initResult: int, preamble: seq<uint8>, initSigned: seq<uint8>,
                         chunks: seq<seq<int16>>, pageAllocOk: bool, signatureIndex: nat)
      returns (ok: bool, ghost headerOk: bool, ghost consumed: nat, ghost h: seq<uint8>)
      requires Valid() && sink == LoggingSink && currentSample == 0
      requires Shl1(samplesRequired) as nat + EraseMargin < 0x1_0000_0000
      requires |preamble| == CborBufferSize && (initResult == AqOk ==> HeaderFits(preamble))
      requires forall i :: 0 <= i < |chunks| ==> |chunks[i]| <= DmaBufSamples
      requires |StreamBytes(chunks)| >= Shl1(samplesRequired) as nat && |StreamBytes(chunks)| > 0
      requires signatureIndex + 2 * DigestSize <= mem.blockSize
      modifies this`headerOffset, this`hashedHeader, this`currentSample, this`recordReady
      modifies cbor, signer, mem.ram
      ensures Valid() && samplesRequired == old(samplesRequired)
      ensures ok <==> && mem.UsedBytes() + EraseLength(samplesRequired) <= mem.memorySize
                      && pageAllocOk && mem.UsedBytes() + mem.blockSize <= mem.memorySize
      ensures headerOk ==> initResult == AqOk && HeaderFits(preamble) && LastNonZero(preamble) != 0
      ensures SessionOutcome(old(mem.ram[..]), old(headerOffset), initResult, preamble, initSigned,
                             chunks, signatureIndex, ok, headerOk, consumed, h)
    {
      ok, headerOk, consumed, h := Acquire(initResult, preamble, initSigned, chunks);
      if !ok {
        return;
      }
      ok := Seal(old(mem.ram[..]), h, StreamBytes(chunks[..consumed]), signatureIndex, pageAllocOk);
    }

    /** `ei_microphone_sample_start`. `q` is the truncated quotient of sample length over
        interval, `frequency` the truncated `1000 / interval`; `initResult`, `preamble` and
        `initSigned` are what `sensor_aq_init` produces, `signatureIndex` where it left room
        for the signature; `chunks` are the batches the driver delivers, enough of them to
        reach the requested count; the booleans are the allocation outcomes. On success the
        stored sample data is the erased area, the header, then exactly the batches the
        loop took, with the hex digest of everything signed patched in at
        `signatureIndex`. The ghost results name whether the header was built, how many
        batches the loop took and what precedes the logged bytes. */
    method SampleStart(q: uint32, frequency: uint32, dmaAllocOk: bool, pdmErr: int,
                       initResult: int, preamble: seq<uint8>, initSigned: seq<uint8>,
                       chunks: seq<seq<int16>>, pageAllocOk: bool, signatureIndex: nat)
      returns (ok: bool, ghost headerOk: bool, ghost consumed: nat, ghost h: seq<uint8>)
      requires Valid() && q < 0x7FFF_F000
      requires |preamble| == CborBufferSize && (initResult == AqOk ==> HeaderFits(preamble))
      requires forall i :: 0 <= i < |chunks| ==> |chunks[i]| <= DmaBufSamples
      requires |StreamBytes(chunks)| >= 2 * RoundEven(q) && |StreamBytes(chunks)| > 0
      requires signatureIndex + 2 * DigestSize <= mem.blockSize
      modifies this, cbor, signer, mem.ram
      ensures Valid()
      ensures samplesRequired == RoundEven(q) && audioSamplingFrequency == frequency
      ensures ok <==> && frequency == SupportedFrequency && dmaAllocOk && pdmErr == 0
                      && mem.UsedBytes() + EraseLength(samplesRequired) <= mem.memorySize
                      && pageAllocOk && mem.UsedBytes() + mem.blockSize <= mem.memorySize
      ensures headerOk ==> initResult == AqOk && HeaderFits(preamble) && LastNonZero(preamble) != 0
      ensures !(frequency == SupportedFrequency && dmaAllocOk && pdmErr == 0) ==>
        mem.ram[..] == old(mem.ram[..])
      ensures frequency == SupportedFrequency && dmaAllocOk && pdmErr == 0 ==>
        SessionOutcome(old(mem.ram[..]), old(headerOffset), initResult, preamble, initSigned,
                       chunks, signatureIndex, ok, headerOk, consumed, h)
    {
      headerOk, consumed, h := false, 0, [];
      ok := Prepare(q, frequency, dmaAllocOk, pdmErr);
      if !ok {
        return;
      }
      ok, headerOk, consumed, h := RecordAndSign(initResult, preamble, initSigned, chunks,
                                                 pageAllocOk, signatureIndex);
    }

    /** `ei_microphone_inference_start`: allocate the two sample buffers (outcome `allocOk`,
        covering the DMA copy buffer too), reset the double buffer, check the rate, install
        the inference callback and start the driver (error `pdmErr`). */
    method InferenceStart(nSamples: uint32, frequency: uint32, allocOk: bool, pdmErr: int)
      returns (ok: bool)
      requires Valid()
      modifies this`audioSamplingFrequency, this`sink, inference
      ensures Valid()
      ensures ok <==> allocOk && frequency == SupportedFrequency && pdmErr == 0
      ensures !allocOk ==> && unchanged(inference) && audioSamplingFrequency == old(audioSamplingFrequency)
                           && sink == old(sink)
      ensures allocOk ==>
        && fresh(inference.buf0) && fresh(inference.buf1) && inference.nSamples == nSamples
        && inference.bufSelect == 0 && inference.bufCount == 0 && inference.bufReady == 0
        && audioSamplingFrequency == frequency
        && sink == if frequency == SupportedFrequency then InferenceSink else old(sink)
    {
      if !allocOk {
        return false;
      }
      inference.Allocate(nSamples);
      audioSamplingFrequency := frequency;
      if audioSamplingFrequency != SupportedFrequency {
        return false;
      }
      sink := InferenceSink;
      if pdmErr != 0 {
        return false;
      }
      ok := true;
    }
  }
}
