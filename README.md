# Signed audio capture on the Particle firmware, in Dafny

This project models the signed sample-capture path of the Edge Impulse firmware for the
Particle Photon 2, and proves properties of that model.

- **The RAM-backed block store, `EiFlashMemory`** (module `Flash`, file `flash.dfy`).
  - It is a class over the static `ram_memory` array of 112 blocks of 512 bytes.
  - It has three raw operations: read, write and erase. Each clamps its length at the end of
    memory and returns the clamped length.
  - The first `used_blocks * block_size` bytes are the configuration region, which
    `save_config` and `load_config` handle.
  - The sample operations shift every address by the size of that region.
- **The capture logic of `ei_microphone.cpp`**, split across these modules:
  - `Header` (`header.dfy`): the `EXTRA_BYTES` padding; the CBOR reference tag that
    `insert_ref` appends, with a small CBOR reader showing that the tag decodes; the backward
    scan for the end of the header; the header image that `create_header` stores.
  - `HexPatch` (`hex_patch.dfy`): the lower-case hex encoding of the digest and the loop
    that writes it into the page buffer.
  - `DoubleBuffer` (`double_buffer.dfy`): the `inference_t` double buffer, given as a class
    with its producer (`audio_buffer_inference_callback`), its consumer
    (`ei_microphone_inference_record`), the reset and the buffer selection of
    `ei_microphone_audio_signal_get_data`. All of these are specified against a value-level
    window (`Window`, `Push`, `PushAll`).
  - `Microphone` (`microphone.dfy`): the driver's statics as one `Microphone` object; the
    `samples_required` rounding and the 32-bit shift arithmetic; the `<<= 2` scaling; the
    logging callback, specified by a value-level `LogView`; `create_header`;
    `ei_microphone_record`; the polling loop; the read-modify-erase-write of the first
    sample block; `ei_microphone_sample_start` and `ei_microphone_inference_start`.
- **The signer** (module `Signing`, `signing.dfy`). mbedtls HMAC-SHA256 behind
  `signature_ctx->update/finish` becomes a context that records every byte passed to
  `update`. `finish` returns an arbitrary fixed-size function `mac` of those bytes. Chunk
  boundaries therefore cannot change the digest. The session statements say that the
  signer has taken what `sensor_aq_init` signed, then the tag, then every logged byte, in
  order. When what `sensor_aq_init` signed is the preamble up to, but not including, its
  last non-zero byte (the byte the tag overwrites), that is exactly the bytes stored from
  sample address 0 to the end of the recording.
- Interrupt callbacks are sequential method calls.
- The PDM driver's batches are an input sequence `chunks`.
- Results of code outside the core are parameters:
  - `sensor_aq_init`: its result code `initResult`, the preamble it leaves in the CBOR buffer
    and the bytes it signs;
  - the outcomes of `malloc`;
  - the PDM start error.
- `Bytes` (`bytes.dfy`) holds the machine widths and `Overwrite` / `Zeros`, the
  value-level effect of `memcpy` and `memset`.

Two behaviours of the code are kept as written:

- `ei_microphone_record` ignores the result of `create_header`. The model keeps that, so
  logging goes on after a failed header.
- `save_config` has already erased the configuration region, and written the part of
  the configuration that fits, when it reports a short write.

## Model

| member | source | states |
|---|---|---|
| Flash.Clamp | src/device/ei_flash_memory.cpp:29-60 | the length a raw operation transfers is never more than asked and never runs past the end of memory; it is the request, or exactly what is left up to the end |
| Flash.FlashMemory.constructor | src/device/ei_flash_memory.cpp:116-117 | a store of 112 blocks of 512 bytes (src/device/ei_flash_memory.h:30-31), the given configuration blocks, zero-filled memory |
| Flash.FlashMemory.UsedBytes | src/device/ei_flash_memory.cpp:96 | the configuration region ends inside memory, on a block boundary |
| Flash.FlashMemory.ReadData | src/device/ei_flash_memory.cpp:29-38 | returns the clamped length; the destination's first bytes are the memory bytes at the address, the rest of the destination and all of memory unchanged |
| Flash.FlashMemory.WriteData | src/device/ei_flash_memory.cpp:40-49 | returns the clamped length; exactly the bytes `[address, address + n)` now hold the data, every other byte unchanged |
| Flash.FlashMemory.EraseData | src/device/ei_flash_memory.cpp:51-60 | returns the clamped length; exactly the bytes `[address, address + n)` are now 0, every other byte unchanged |
| Flash.FlashMemory.ReadAfterWrite | src/device/ei_flash_memory.cpp:29-49 | a write followed by a read of the same range on the store: both transfer the same clamped length, the read returns exactly the bytes written, and memory holds them at the address with every other byte unchanged |
| Flash.FlashMemory.AvailableSampleBlocks | src/device/ei_flash_memory.cpp:62-65 | the free blocks and the configuration blocks add up to all blocks |
| Flash.FlashMemory.AvailableSampleBytes | src/device/ei_flash_memory.cpp:67-70 | free bytes are free blocks times the block size, and together with the configuration region they fill memory |
| Flash.FlashMemory.SaveConfig | src/device/ei_flash_memory.cpp:72-84 | succeeds exactly when the whole configuration fits in memory; memory is the configuration region erased and then the clamped configuration written at 0 |
| Flash.ConfigImage | src/device/ei_flash_memory.cpp:72-84 | after a save that fits its region: the configuration at 0, zeros up to the end of the region, the sample region untouched |
| Flash.FlashMemory.LoadConfig | src/device/ei_flash_memory.cpp:86-92 | succeeds exactly when the request fits in memory, and then returns the stored bytes at 0; memory is not changed |
| Flash.FlashMemory.LoadAfterSave | src/device/ei_flash_memory.cpp:72-92 | `save_config` followed by `load_config` of the same size: both succeed exactly when the configuration fits in memory, and then the load returns the configuration saved |
| Flash.FlashMemory.ReadSampleData | src/device/ei_flash_memory.cpp:94-99 | the read at the configuration size plus the sample address, clamped, memory unchanged |
| Flash.FlashMemory.WriteSampleData | src/device/ei_flash_memory.cpp:101-106 | the write at the configuration size plus the sample address; the configuration region is never touched |
| Flash.FlashMemory.EraseSampleData | src/device/ei_flash_memory.cpp:108-113 | the erase at the configuration size plus the sample address; the configuration region is never touched |
| Header.ExtraBytes | src/sensors/ei_microphone.cpp:153 | the padding is at most 3 and brings the length to a multiple of 4 |
| Header.RefTag | src/sensors/ei_microphone.cpp:156-168 | the tag is `16 + padding` bytes and ends the header on a multiple of 4: `0x60 + 14 + padding`, then `Ref-BINARY-i16`, then the padding spaces, then `0xFF` |
| Header.ParseRefTag | src/sensors/ei_microphone.cpp:158-166 | a reader for a definite-length text string (section 3.1 of RFC 8949) followed by the break byte (section 3.2.1 of RFC 8949); whatever it accepts is exactly the bytes between the initial byte and the break |
| Header.RefTagDecodes | src/sensors/ei_microphone.cpp:158-166 | the tag reads back as a text string of the name followed by the padding spaces, with the break after it |
| Header.InsertRef | src/sensors/ei_microphone.cpp:151-169 | the byte-by-byte loops leave the tag at `buffer[at..]`, change no other byte of the buffer and return the tag's length |
| Header.CopyName | src/sensors/ei_microphone.cpp:159-161 | the first loop of `insert_ref` puts the name in place after the initial byte |
| Header.CopySpaces | src/sensors/ei_microphone.cpp:162-164 | the second loop of `insert_ref` puts the padding spaces in place after the name |
| Header.LastNonZero | src/sensors/ei_microphone.cpp:193-204 | the index the scan settles on: every byte after it is 0, and when it is not 0 the byte there is non-zero |
| Header.LastNonZeroUnique | src/sensors/ei_microphone.cpp:193-204 | those properties pin the index down, so any scan that meets them returns the same index |
| Header.FindEndOfHeader | src/sensors/ei_microphone.cpp:193-199 | the backward loop, stopping at index 0, returns the last non-zero index of the buffer, or 0 when only byte 0 or no byte is non-zero |
| Header.HeaderImage | src/sensors/ei_microphone.cpp:207-219 | the stored header is the preamble up to its last non-zero byte, with the tag written over that byte; its length is that index plus the tag size, a multiple of 4 |
| Header.ScanAsWritten | src/sensors/ei_microphone.cpp:194-199 | the loop as written, with an unsigned index: when it finds a non-zero byte, that byte is at or below the start; otherwise it wraps below 0 and reads at `0xFFFFFFFF` |
| Header.AllZeroScanReadsOutside | src/sensors/ei_microphone.cpp:194-199 | on an all-zero buffer the loop as written reads at `0xFFFFFFFF`, outside the buffer |
| Header.ScanAsWrittenAgrees | src/sensors/ei_microphone.cpp:194-199 | whenever the buffer holds a non-zero byte, the loop as written finds the same index as the corrected scan |
| HexPatch.NibbleChar | src/sensors/ei_microphone.cpp:476-477 | every nibble becomes a digit or one of the letters `a` to `f`; `NibbleCharDecodes` and `NibbleCharIsAlphabet` state which |
| HexPatch.NibbleCharIsAlphabet | src/sensors/ei_microphone.cpp:476-477 | `87 + n` for `n >= 10`, else `48 + n`, is the `n`-th character of `0123456789abcdef` |
| HexPatch.NibbleValue | src/sensors/ei_microphone.cpp:476-477 | reading a lower-case hex character gives a nibble below 16 |
| HexPatch.NibbleCharDecodes | src/sensors/ei_microphone.cpp:476-477 | the character `first >= 10 ? 87 + first : 48 + first` reads back as the nibble, and it is a digit exactly when the nibble is below 10 |
| HexPatch.ByteHex | src/sensors/ei_microphone.cpp:471-477 | each digest byte becomes two characters |
| HexPatch.ByteHexDecodes | src/sensors/ei_microphone.cpp:471-477 | the characters of `(b >> 4) & 0xf` and `b & 0xf` read back as the byte `b` |
| HexPatch.HexDecodeSnoc | src/sensors/ei_microphone.cpp:468-481 | two more characters from one more loop turn decode to one more byte after what the text before them decodes to |
| HexPatch.HexEncode | src/sensors/ei_microphone.cpp:468-481 | the hex text is twice as long as the digest |
| HexPatch.HexRoundTrip | src/sensors/ei_microphone.cpp:468-481 | decoding the hex text of a digest gives the digest back |
| HexPatch.HexEncodeAt | src/sensors/ei_microphone.cpp:471-480 | digest byte `i` becomes the character of its high nibble at `2i` and of its low nibble at `2i + 1` |
| HexPatch.PatchSignature | src/sensors/ei_microphone.cpp:468-481 | after the loop the page holds the hex text at the signature index and no other page byte has changed |
| HexPatch.PatchedSlotDecodes | src/sensors/ei_microphone.cpp:468-481 | the patched slot decodes to the digest, and every page byte outside the slot is as before |
| Signing.SignatureContext.constructor | src/sensors/ei_microphone.cpp:67-68 | a context under a given MAC that has absorbed nothing |
| Signing.SignatureContext.Init | src/sensors/ei_microphone.cpp:175 | arming the context empties what it has absorbed |
| Signing.SignatureContext.Update | src/sensors/ei_microphone.cpp:97 | `update` appends exactly its bytes to what the signer has absorbed |
| Signing.SignatureContext.Finish | src/sensors/ei_microphone.cpp:444-448 | `finish` returns the 32-byte MAC of every absorbed byte and spends the context |
| Signing.AbsorbIsConcat | src/sensors/ei_microphone.cpp:97 | one `update` per chunk absorbs the concatenation of the chunks |
| Signing.ChunkBoundaryIndependence | src/sensors/ei_microphone.cpp:97 | two ways of cutting the same stream into `update` calls give the same digest |
| DoubleBuffer.Xor1 | src/sensors/ei_microphone.cpp:111 | `x ^ 1` flips the lowest bit and keeps the rest |
| DoubleBuffer.Push | src/sensors/ei_microphone.cpp:107-115 | one sample: stored at `buf_count` of the active buffer only; the buffer flips exactly when it becomes full, and then the count is 0, `buf_ready` is set and the full buffer becomes the consumer's; otherwise the count goes up by one; the invariants (`buf_select <= 1`, `buf_count < n_samples`) are kept |
| DoubleBuffer.PushAll | src/sensors/ei_microphone.cpp:107-115 | any run of samples keeps the double-buffer invariants and the buffer sizes |
| DoubleBuffer.PartialFill | src/sensors/ei_microphone.cpp:107-115 | samples that fit in the room left land one after the other at `buf_count`; nothing else in either buffer changes and there is no hand-over |
| DoubleBuffer.FullWindow | src/sensors/ei_microphone.cpp:107-115 | `n_samples` samples from an empty buffer cause exactly one hand-over; the consumer then sees exactly those samples, and the producer moves to the other buffer |
| DoubleBuffer.InferenceBuffers.constructor | src/sensors/ei_microphone.cpp:64 | the zero-initialised static struct: no samples, `buf_select`, `buf_count` and `buf_ready` all 0 |
| DoubleBuffer.InferenceBuffers.Allocate | src/sensors/ei_microphone.cpp:263-288 | two fresh buffers of `n_samples` each, select, count and ready all 0 |
| DoubleBuffer.InferenceBuffers.Store | src/sensors/ei_microphone.cpp:108-114 | one turn of the copy loop on the arrays is `Push` on their value |
| DoubleBuffer.InferenceBuffers.Callback | src/sensors/ei_microphone.cpp:105-116 | the callback stores the first `n_bytes >> 1` DMA samples, in order, as `PushAll` does, keeping the invariants |
| DoubleBuffer.InferenceBuffers.Record | src/sensors/ei_microphone.cpp:323-339 | returns true exactly when `buf_ready` was set; reports an overrun exactly when it was set on a first run, and an overrun returns true; afterwards `buf_ready` is 0 |
| DoubleBuffer.InferenceBuffers.RecordChecked | src/sensors/ei_microphone.cpp:318-322 | as documented: an overrun returns false; otherwise returns true exactly when `buf_ready` was set; afterwards `buf_ready` is 0 |
| DoubleBuffer.InferenceBuffers.ResetBuffers | src/sensors/ei_microphone.cpp:344-351 | `buf_ready` and `buf_count` are 0, the invariants kept |
| DoubleBuffer.InferenceBuffers.SignalData | src/sensors/ei_microphone.cpp:356-359 | the samples handed out come from `buffers[buf_select ^ 1]`, the consumer's buffer, at the requested offset and length |
| Microphone.RoundEven | src/sensors/ei_microphone.cpp:393-398 | the count is even; it equals the quotient exactly when that is even, and otherwise exceeds it by one (wrapping to 0 at the 32-bit maximum) |
| Microphone.Shl1 | src/sensors/ei_microphone.cpp:100 | `samples_required << 1` is twice the count when that does not overflow 32 bits |
| Microphone.EraseLength | src/sensors/ei_microphone.cpp:246 | `(samples_required << 1) + 4096` is twice the count plus 4096 when that does not overflow |
| Microphone.Scale | src/sensors/ei_microphone.cpp:129-131 | `<<= 2` on a sample is four times the sample modulo 2^16, and exactly four times it when there is no overflow |
| Microphone.ScaleAll | src/sensors/ei_microphone.cpp:129-131 | every sample of a batch is scaled, in place and in order |
| Microphone.SampleBytes | src/sensors/ei_microphone.cpp:94 | a sample occupies two bytes of the DMA copy buffer |
| Microphone.SampleBytesRoundTrip | src/sensors/ei_microphone.cpp:94 | the two little-endian bytes read back as the sample |
| Microphone.LeBytes | src/sensors/ei_microphone.cpp:94-97 | the byte view of `n` samples is `2n` bytes |
| Microphone.LeBytesAt | src/sensors/ei_microphone.cpp:94-97 | sample `i` occupies bytes `2i` and `2i + 1` of the byte view |
| Microphone.ChunkBytes | src/sensors/ei_microphone.cpp:127-133 | what a batch of `n` samples hands to the callback is `n * 2` bytes |
| Microphone.LogBytes | src/sensors/ei_microphone.cpp:91-103 | the logging callback on values adds the whole batch to the count and keeps the memory size |
| Microphone.LogSteps | src/sensors/ei_microphone.cpp:118-136 | a run of batches through the callback counts every byte of the stream |
| Microphone.LogStepsStores | src/sensors/ei_microphone.cpp:91-103 | logging a stream that fits stores it contiguously after what was already logged, however it is cut into batches |
| Microphone.LogStepsSigns | src/sensors/ei_microphone.cpp:97 | logging a stream feeds exactly that stream to the signer, in order |
| Microphone.LogStepsReady | src/sensors/ei_microphone.cpp:99-102 | `record_ready` is still set after a stream exactly when it was set before and the count has not yet reached `samples_required << 1` (or no byte arrived) |
| Microphone.LogStepsStep | src/sensors/ei_microphone.cpp:437-439 | one more polling turn while recording extends the logged view by one batch; the count before it was below the target |
| Microphone.CaptureOutcome | src/sensors/ei_microphone.cpp:432-439 | once the polling loop has stopped on a long enough stream, `record_ready` is clear; the batches taken are stored after the header, signed in order and counted; their bytes reach the target |
| Microphone.Recording | src/sensors/ei_microphone.cpp:246-250 | the sample area after a recording: header at sample address 0, then the logged stream, zeros up to the end of the erased length, and every byte outside the erased area unchanged |
| Microphone.Microphone.constructor | src/sensors/ei_microphone.cpp:55-75 | the statics at program start: not recording, offset and counters 0, frequency 16000, no callback installed, a zero CBOR buffer |
| Microphone.Microphone.AudioBufferCallback | src/sensors/ei_microphone.cpp:91-103 | writes the batch at `headerOffset + current_sample`, clamped at the end of memory; signs the whole batch; adds the byte count; clears `record_ready` once the count reaches `samples_required << 1` |
| Microphone.Microphone.PdmDataReady | src/sensors/ei_microphone.cpp:118-136 | an empty batch changes nothing; otherwise the scaled batch goes to the installed sink: the logging callback, or the double buffer |
| Microphone.Microphone.LogBatch | src/sensors/ei_microphone.cpp:118-136 | with the logging sink, a non-empty batch is its scaled bytes through the logging callback |
| Microphone.Microphone.LoadPreamble | src/sensors/ei_microphone.cpp:185 | whatever `sensor_aq_init` returns, the CBOR buffer holds the preamble it leaves there and the signer has taken, after what it held before, what `sensor_aq_init` signed |
| Microphone.Microphone.AppendRef | src/sensors/ei_microphone.cpp:207-216 | the tag is written over that index and signed as written; the header length is the index plus the tag size |
| Microphone.Microphone.TagPreamble | src/sensors/ei_microphone.cpp:185-216 | returns 0 exactly when `sensor_aq_init` failed or the last non-zero index is 0, and then the buffer holds the preamble and the signer what `sensor_aq_init` signed; otherwise the CBOR buffer begins with the header image and the signer has taken what `sensor_aq_init` signed and then the tag |
| Microphone.Microphone.StoreHeader | src/sensors/ei_microphone.cpp:218-226 | the header is written at sample address 0; `headerOffset` becomes its length only if the write was full length |
| Microphone.Microphone.CreateHeader | src/sensors/ei_microphone.cpp:171-229 | succeeds exactly when `sensor_aq_init` succeeded, the scan found an end and the header store was full length; an early failure leaves memory unchanged, the preamble in the CBOR buffer and the signer holding what `sensor_aq_init` signed; with an end found, the signer has taken what `sensor_aq_init` signed and then the tag, and the header image is stored at sample address 0; only on success does `headerOffset` become the header length, a multiple of 4 |
| Microphone.Microphone.Record | src/sensors/ei_microphone.cpp:234-257 | fails exactly when the erase of `(samples_required << 1) + 4096` comes back short; then only that clamped erase has happened and the header is not built; otherwise the header's outcome is ignored and what the signer has taken is recorded as the hashed header; the header is built exactly when `sensor_aq_init` succeeded, its preamble holds a non-zero byte and the header fits; then the erased area starts with it, the signer has taken what `sensor_aq_init` signed and the tag, and `headerOffset` is its length; when `sensor_aq_init` failed or no end was found, `headerOffset` keeps its old value, the signer holds what `sensor_aq_init` signed, and memory is just the erase |
| Microphone.Microphone.Capture | src/sensors/ei_microphone.cpp:437-439 | the polling loop is the value-level `LogSteps` over the batches it took; it stops taking batches once `record_ready` clears |
| Microphone.Microphone.CaptureTurn | src/sensors/ei_microphone.cpp:437-439 | one polling turn extends the logged view by exactly that batch |
| Microphone.Microphone.Collect | src/sensors/ei_microphone.cpp:432-439 | raising `record_ready` and polling a long enough stream: the batches taken are stored contiguously after the header and signed in order; the count reaches `samples_required << 1` and overshoots it by less than one batch |
| Microphone.Microphone.Arm | src/sensors/ei_microphone.cpp:234-257 | `ei_microphone_record` when the erase length does not wrap: fails exactly when the erase does not fit, leaving only the clamped erase; otherwise the header is built exactly when `sensor_aq_init` succeeded and the preamble holds a non-zero byte; the erased area then starts with the header image, or with the erased bytes up to the old `headerOffset` when no header was built; the hashed header is what `sensor_aq_init` signed plus the tag, or only what it signed when no header was built |
| Microphone.Microphone.LogSession | src/sensors/ei_microphone.cpp:432-439 | the recording phase over that area: the loop stops at the first batch that brings the count to `samples_required << 1`, overshooting by at most one batch; the stream lands right after the header inside the erased length, zeros follow it, and the signer has taken the hashed header and then exactly the stream |
| Microphone.Microphone.Acquire | src/sensors/ei_microphone.cpp:428-439 | record, then capture: succeeds exactly when the erase fits; the header is built exactly when `sensor_aq_init` succeeded and its preamble holds a non-zero byte; the loop stops at the first batch that reaches the target, overshooting by at most one batch; the sample area is the header (or the erased bytes up to the old offset), then the stream, then zeros; the signer has taken what `sensor_aq_init` signed, the tag when there is a header, then exactly the stream; when `sensor_aq_init` signed the preamble up to, but not including, its last non-zero byte, the hashed header is the stored header |
| Microphone.Microphone.RecordedSignsStored | src/sensors/ei_microphone.cpp:91-103 | when the hashed header is the stored header, the signer has absorbed exactly the bytes stored from sample address 0 to `headerOffset + current_sample` |
| Microphone.Microphone.ReadFirstBlock | src/sensors/ei_microphone.cpp:457-462 | the page read from sample address 0 is the first sample block; the read comes back short exactly when that block does not fit in memory |
| Microphone.Microphone.RewriteFirstBlock | src/sensors/ei_microphone.cpp:483-497 | erasing and then writing one block at sample address 0 leaves exactly the page there |
| Microphone.Microphone.PatchFirstBlock | src/sensors/ei_microphone.cpp:457-497 | the read-modify-erase-write of block 0: on success exactly the signature slot of the first sample block changes, to the hex digest; on failure memory is unchanged |
| Microphone.Microphone.FinalizeSignature | src/sensors/ei_microphone.cpp:444-497 | `finish` yields the MAC of every signed byte; on success that MAC is in hex at the signature index of the first sample block, and nothing else changed; a failed allocation or a short read changes nothing |
| Microphone.Microphone.Seal | src/sensors/ei_microphone.cpp:444-497 | over a finished recording: the signer is finished; succeeds exactly when the page buffer is allocated and the first block fits; then the recording carries the hex MAC of everything signed at the signature index, else it stays as it was |
| Microphone.Microphone.RecordAndSign | src/sensors/ei_microphone.cpp:428-497 | record, capture and patch the signature: succeeds exactly when the erase fits, the page buffer is allocated and the first block fits; a short erase leaves only the clamped erase; otherwise the outcome of the session as `Acquire` states it, with the signer finished and the recording signed on success or left unsigned on a late failure |
| Microphone.Microphone.Prepare | src/sensors/ei_microphone.cpp:393-426 | `samples_required` is the rounded quotient, `current_sample` 0, the frequency stored; the logging callback is installed only at 16000 Hz; set-up succeeds exactly at 16000 Hz, with the allocation and driver start both succeeding |
| Microphone.Microphone.SampleStart | src/sensors/ei_microphone.cpp:379-503 | succeeds exactly when the frequency, allocations, driver, erase and first-block read all succeed; a failed set-up leaves memory unchanged and a short erase leaves only the clamped erase; past the erase, the header is built exactly when `sensor_aq_init` succeeded and its preamble holds a non-zero byte, the loop stops at the first batch that reaches the target, the signer is finished over the hashed header and exactly the logged bytes, and the sample area is header (or erased bytes up to the old offset), stream and zeros, with the hex MAC of the signed bytes at the signature index on success and without it when the page buffer or the first block was missing |
| Microphone.Microphone.InferenceStart | src/sensors/ei_microphone.cpp:259-316 | succeeds exactly when allocation, frequency and driver start succeed; a successful allocation leaves fresh buffers of `n_samples` with counters 0; the inference callback is installed only at 16000 Hz |

## Left out

- Printing, `ei_sleep` delays, the PDM driver (`start`, `samplesAvailable`, `copySamples`, the `noCopySamples` drains), the sample thread and `finish_and_upload`: driver, timer or print-only code. The driver's deliveries are the input `chunks`.
- `sensor_aq_init` and its CBOR preamble: external code. Its result, the preamble it leaves in the CBOR buffer and the bytes it signs are inputs, on its failure path as well as on success.
- DoubleBuffer.InferenceBuffers.RecordChecked: does not wait for a full buffer, as the documentation of `ei_microphone_inference_record` says; waiting needs the concurrent callback, and neither the source nor the model waits.
- The mbedtls HMAC-SHA256 internals: external code. The digest is an arbitrary fixed-size function of the signed bytes.
- Signing.SignatureContext.Update: `update` and `finish` always return 0. Their error paths in `create_header` and `ei_microphone_sample_start` are not modelled.
- The float computations `1000.f / interval_ms` and length over interval: floating point. The frequency and the truncated quotient are integer inputs, and only the `!= 16000` test is kept.
- Interrupt concurrency: callbacks are atomic sequential steps, and the race on `buf_ready` is not modelled.
- `ei_microphone_inference_end` and the `free` calls: deallocation is not modelled.
- Microphone.Microphone.InferenceStart: one outcome covers all three allocations. A failed allocation leaves the buffers as they were, where the source leaves a freed or NULL buffer behind.
- DoubleBuffer.InferenceBuffers.SignalData: hands out the `int16` samples. `numpy::int16_to_float`, its float output and its return code are not modelled: floating point and external code.
- DoubleBuffer.InferenceBuffers.Allocate: allocates `n_samples` elements. The source asks `malloc` for `n_samples * sizeof(int16_t)` bytes, a product that wraps for `n_samples >= 0x8000_0000` on a 32-bit `size_t`; that wrap is not modelled.
- `EiDeviceMemory`, the base class that derives `used_blocks`, `memory_size` and `block_size` from the constructor arguments, is not part of this model. `usedBlocks` is a constructor parameter bounded by the block count.
- Flash.FlashMemory.ReadData, Flash.FlashMemory.WriteData, Flash.FlashMemory.EraseData (and the sample operations, for configuration size plus address): require `address <= memory_size`. Beyond that the source's unsigned subtraction wraps and the copy runs outside the array.
- Header.InsertRef and Microphone.Microphone.CreateHeader: require that the tag fits in the 1024-byte CBOR buffer (`HeaderFits`). The source does not check this and would write past the buffer.
- Microphone.Microphone.SampleStart: requires a quotient below `0x7FFF_F000`, so the erase length `(samples_required << 1) + 4096` does not wrap. A wrapped length would pass the erase check with too little room.
- Microphone.Microphone.SampleStart: requires a driver stream long enough to end the polling loop. On a shorter stream the source polls forever.
- Microphone.Microphone.SampleStart: requires the 64-byte hex slot to lie inside the page buffer. The source would write past the page otherwise.
- Microphone.Microphone.RewriteFirstBlock: a short erase or write after a full read cannot happen in this store, because the block lies inside memory. Those failure returns are modelled as dead branches.
- Microphone.Microphone.CreateHeader: after a failed header, `headerOffset` keeps its old value and logging still starts there. This is the source's behaviour, and the model does not fix it.
- The `Microphone_PDM` sample scaling is modelled on `int16` with explicit wrap-around, not as a bit-vector shift.
- `ei_nms.h`, the IMU driver, the device singleton and `main.cpp`: outside the capture path.

## Findings

| source | as written | input that shows it | evidently intended | confidence | as-written member | corrected member |
|---|---|---|---|---|---|---|
| src/sensors/ei_microphone.cpp:194-199 | the backward scan's index is a `size_t`, so the guard `ix >= 0` is always true and the loop only leaves by `break` | a CBOR buffer with no non-zero byte: `ix` wraps from 0 to `0xFFFFFFFF` and the loop reads outside the 1024-byte buffer | stop after index 0 and report that no end of header was found | high that the guard never fails; only reachable if `sensor_aq_init` leaves an all-zero buffer; not executed | Header.ScanAsWritten, Header.AllZeroScanReadsOutside | Header.FindEndOfHeader, Header.LastNonZero |
| src/sensors/ei_microphone.cpp:318-339 | the documentation says an overrun returns false, but the body sets `ret` to true whenever `buf_ready` is set, overrun or not | `first_run` true with `buf_ready` already 1: the overrun is printed and the call returns true | return false on an overrun, as documented | medium: the documentation and the body disagree, and either could be the intent; not executed | DoubleBuffer.InferenceBuffers.Record | DoubleBuffer.InferenceBuffers.RecordChecked |
