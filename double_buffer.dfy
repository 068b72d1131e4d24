/** The inference double buffer (`inference_t`): the producer fills `buffers[bufSelect]`
    sample by sample; a full buffer hands itself to the consumer by flipping `bufSelect`
    and raising `bufReady`; the consumer reads `buffers[bufSelect ^ 1]`. */
module DoubleBuffer {
  import opened Bytes

  /** `x ^ 1` for a non-negative `x`. */
  function Xor1(x: nat): (r: nat)
    ensures r / 2 == x / 2 && r % 2 != x % 2
  {
    if x % 2 == 0 then x + 1 else x - 1
  }

  /** The abstract value of the double buffer. */
  datatype Window = Window(select: nat, count: nat, ready: nat, b0: seq<int16>, b1: seq<int16>)
  {
    ghost predicate WellFormed() {
      select <= 1 && ready <= 1 && |b0| == |b1| && count < |b0|
    }

    /** The buffer the producer fills. */
    function Active(): seq<int16> {
      if select == 0 then b0 else b1
    }

    /** The buffer the consumer reads, `buffers[select ^ 1]`. */
    function Consumer(): seq<int16> {
      if Xor1(select) == 0 then b0 else b1
    }
  }

  /** One iteration of the producer loop: store `x` at `count` in the active buffer, and
      hand the buffer over once it is full. */
  function Push(w: Window, x: int16): (r: Window)
    requires w.WellFormed()
    ensures r.WellFormed() && |r.b0| == |w.b0|
    ensures r.Consumer() == (if r.select == w.select then w.Consumer() else w.Active()[w.count := x])
    ensures r.select == w.select ==> r.Active() == w.Active()[w.count := x]
    ensures r.select != w.select <==> w.count + 1 == |w.b0|
    ensures r.select != w.select ==> r.count == 0 && r.ready == 1 && r.Active() == w.Consumer()
    ensures r.select == w.select ==> r.count == w.count + 1 && r.ready == w.ready
  {
    var b0 := if w.select == 0 then w.b0[w.count := x] else w.b0;
    var b1 := if w.select == 1 then w.b1[w.count := x] else w.b1;
    var count := w.count + 1;
    if count >= |w.b0| then Window(Xor1(w.select), 0, 1, b0, b1)
    else Window(w.select, count, w.ready, b0, b1)
  }

  /** The state after pushing `xs` one sample at a time. */
  function PushAll(w: Window, xs: seq<int16>): (r: Window)
    requires w.WellFormed()
    ensures r.WellFormed() && |r.b0| == |w.b0|
    decreases |xs|
  {
    if xs == [] then w else Push(PushAll(w, xs[..|xs| - 1]), xs[|xs| - 1])
  }

  /** Fewer samples than the room left in the active buffer: no hand-over, the samples
      land after the ones already there, the rest of the active buffer is untouched, and
      so is the consumer's buffer. */
  lemma {:induction false} PartialFill(w: Window, xs: seq<int16>)
    requires w.WellFormed() && w.count + |xs| < |w.b0|
    ensures var r := PushAll(w, xs);
      && r.select == w.select && r.ready == w.ready && r.count == w.count + |xs|
      && |r.Active()| == |w.Active()|
      && (forall k :: 0 <= k < |xs| ==> r.Active()[w.count + k] == xs[k])
      && (forall k :: 0 <= k < |w.b0| && !(w.count <= k < w.count + |xs|) ==>
            r.Active()[k] == w.Active()[k])
      && r.Consumer() == w.Consumer()
    decreases |xs|
  {
    if xs != [] {
      var init := xs[..|xs| - 1];
      PartialFill(w, init);
      var m := PushAll(w, init);
      var r := Push(m, xs[|xs| - 1]);
      assert r.Active() == m.Active()[m.count := xs[|xs| - 1]];
      forall k | 0 <= k < |xs| ensures r.Active()[w.count + k] == xs[k] {
        if k < |init| {
          assert m.Active()[w.count + k] == init[k];
        }
      }
    }
  }

  /** A window of exactly `n` samples pushed from an empty active buffer: the buffer is
      handed over exactly once, the consumer then sees precisely those samples, and the
      producer moves on to the other buffer, which it has not touched. */
  lemma FullWindow(w: Window, xs: seq<int16>)
    requires w.WellFormed() && w.count == 0 && |xs| == |w.b0|
    ensures var r := PushAll(w, xs);
      && r.select == Xor1(w.select) && r.count == 0 && r.ready == 1
      && r.Consumer() == xs
      && r.Active() == w.Consumer()
  {
    var init := xs[..|xs| - 1];
    PartialFill(w, init);
    var m := PushAll(w, init);
    var r := Push(m, xs[|xs| - 1]);
    assert PushAll(w, xs) == r;
    assert r.select != m.select;
    assert r.Consumer() == m.Active()[m.count := xs[|xs| - 1]];
    forall k | 0 <= k < |xs| ensures r.Consumer()[k] == xs[k] {
      if k < |init| {
        assert m.Active()[0 + k] == init[k];
      }
    }
  }

  class InferenceBuffers {
    var buf0: array<int16>
    var buf1: array<int16>
    var bufSelect: uint8
    var bufReady: uint8
    var bufCount: uint32
    var nSamples: uint32

    ghost predicate Valid()
      reads this
    {
      && buf0 != buf1
      && buf0.Length == nSamples && buf1.Length == nSamples
      && bufSelect <= 1 && bufReady <= 1
      && (bufCount < nSamples || bufCount == nSamples == 0)
    }

    ghost function State(): (w: Window)
      reads this, buf0, buf1
    {
      Window(bufSelect, bufCount, bufReady, buf0[..], buf1[..])
    }

    /** The static, zero-initialised struct before any inference start: no buffers. */
    constructor ()
      ensures Valid() && nSamples == 0 && bufReady == 0 && bufSelect == 0 && bufCount == 0
    {
      buf0 := new int16[0];
      buf1 := new int16[0];
      bufSelect, bufReady, bufCount, nSamples := 0, 0, 0, 0;
    }

    /** The allocation and counter set-up of `ei_microphone_inference_start`. The fresh
        buffers' contents are left unspecified, as `malloc` leaves them. */
    method Allocate(n: uint32)
      modifies this
      ensures Valid() && fresh(buf0) && fresh(buf1)
      ensures nSamples == n && bufSelect == 0 && bufCount == 0 && bufReady == 0
    {
      buf0 := new int16[n];
      buf1 := new int16[n];
      bufSelect := 0;
      bufCount := 0;
      nSamples := n;
      bufReady := 0;
    }

    /** One turn of the copy loop of `audio_buffer_inference_callback`: store `x` in the
        active buffer and flip buffers once it is full. */
    method Store(x: int16)
      requires Valid() && nSamples > 0
      modifies this`bufSelect, this`bufReady, this`bufCount, buf0, buf1
      ensures Valid()
      ensures State() == Push(old(State()), x)
    {
      if bufSelect == 0 {
        buf0[bufCount] := x;
      } else {
        buf1[bufCount] := x;
      }
      bufCount := bufCount + 1;
      if bufCount >= nSamples {
        bufSelect := Xor1(bufSelect);
        bufCount := 0;
        bufReady := 1;
      }
    }

    /** `audio_buffer_inference_callback`: store the first `nBytes >> 1` DMA samples. */
    method Callback(dma: seq<int16>, nBytes: uint32)
      requires Valid() && nSamples > 0 && nBytes / 2 <= |dma|
      modifies this`bufSelect, this`bufReady, this`bufCount, buf0, buf1
      ensures Valid()
      ensures State() == PushAll(old(State()), dma[..nBytes / 2])
    {
      var i := 0;
      while i < nBytes / 2
        invariant 0 <= i <= nBytes / 2
        invariant Valid()
        invariant State() == PushAll(old(State()), dma[..i])
      {
        Store(dma[i]);
        assert dma[..i + 1][..i] == dma[..i];
        i := i + 1;
      }
    }

    /** `ei_microphone_inference_record` as written: reports whether a full buffer was
        waiting (and consumes that notice), and whether the caller's first run found one
        already waiting, which the source reports as an overrun. An overrun still returns
        true. */
    method Record(firstRun: bool) returns (ret: bool, overrun: bool)
      requires Valid()
      modifies this`bufReady
      ensures Valid()
      ensures ret <==> old(bufReady) == 1
      ensures overrun <==> old(bufReady) == 1 && firstRun
      ensures overrun ==> ret
      ensures bufReady == 0
    {
      overrun := bufReady == 1 && firstRun == true;
      ret := false;
      if bufReady != 0 {
        ret := true;
        bufReady := 0;
      }
    }

    /** `ei_microphone_inference_record` as its documentation describes it: a full buffer
        that was waiting is consumed either way, but an overrun returns false. Waiting for
        the buffer is not modelled. */
    method RecordChecked(firstRun: bool) returns (ret: bool, overrun: bool)
      requires Valid()
      modifies this`bufReady
      ensures Valid()
      ensures overrun <==> old(bufReady) == 1 && firstRun
      ensures overrun ==> !ret
      ensures ret <==> old(bufReady) == 1 && !overrun
      ensures bufReady == 0
    {
      overrun := bufReady == 1 && firstRun;
      ret := bufReady == 1 && !overrun;
      bufReady := 0;
    }

    /** `ei_microphone_inference_reset_buffers`, without the driver drain. */
    method ResetBuffers()
      requires Valid()
      modifies this`bufReady, this`bufCount
      ensures Valid() && bufReady == 0 && bufCount == 0
    {
      bufReady := 0;
      bufCount := 0;
    }

    /** The samples `ei_microphone_audio_signal_get_data` converts to float: `length`
        samples from `offset` of `buffers[bufSelect ^ 1]`. */
    method SignalData(offset: nat, length: nat) returns (samples: seq<int16>)
      requires Valid() && offset + length <= nSamples
      ensures samples == State().Consumer()[offset..offset + length]
      ensures samples == (if bufSelect == 1 then buf0 else buf1)[offset..offset + length]
    {
      var b := if Xor1(bufSelect) == 0 then buf0 else buf1;
      samples := b[offset..offset + length];
    }
  }
}
