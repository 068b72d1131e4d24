/** The RAM-backed block store of the Particle port (`EiFlashMemory`): one statically
    allocated byte array standing in for flash, split into a configuration region of
    `usedBlocks` blocks and a sample region after it. */
module Flash {
  import opened Bytes

  const RamNBlocks: uint32 := 112
  const RamBlockSize: uint32 := 512

  /** The length a raw operation at `address` actually transfers: the request cut back so
      that it never runs past the end of memory. */
  function Clamp(numBytes: nat, memorySize: nat, address: nat): (n: nat)
    requires address <= memorySize
    ensures n <= numBytes && address + n <= memorySize
    ensures n == numBytes || address + n == memorySize
  {
    if numBytes > memorySize - address then memorySize - address else numBytes
  }

  /** What `SaveConfig` leaves behind when the configuration fits its region: the
      configuration, then erased bytes up to the end of the region, then the old sample data. */
  lemma ConfigImage(s: seq<uint8>, usedBytes: nat, config: seq<uint8>)
    requires |config| <= usedBytes <= |s|
    ensures var r := Overwrite(Overwrite(s, 0, Zeros(usedBytes)), 0, config);
      && r[..|config|] == config
      && r[|config|..usedBytes] == Zeros(usedBytes - |config|)
      && r[usedBytes..] == s[usedBytes..]
  {
    var e := Overwrite(s, 0, Zeros(usedBytes));
    var r := Overwrite(e, 0, config);
    forall k | |config| <= k < usedBytes ensures r[k] == 0 {
      assert e[k] == e[0..usedBytes][k];
    }
    assert r[|config|..usedBytes] == Zeros(usedBytes - |config|);
  }

  class FlashMemory {
    /** `ram_memory`, the static buffer behind every operation. */
    const ram: array<uint8>
    const memorySize: uint32
    const blockSize: uint32
    const memoryBlocks: uint32
    const usedBlocks: uint32

    ghost predicate Valid() {
      && memorySize == RamNBlocks * RamBlockSize
      && blockSize == RamBlockSize
      && memoryBlocks == RamNBlocks
      && usedBlocks <= memoryBlocks
      && ram.Length == memorySize
    }

    /** Size of the configuration region in bytes; sample addresses are relative to it. */
    function UsedBytes(): (n: uint32)
      requires Valid()
      ensures n <= memorySize && n % blockSize == 0
    {
      usedBlocks * blockSize
    }

    /** `usedBlocks` is what the base class derives from the configuration size it is
        given; the derivation is not part of this model. The buffer is static, so it
        starts out erased. */
    constructor (usedBlocks: uint32)
      requires usedBlocks <= RamNBlocks
      ensures Valid() && fresh(ram)
      ensures this.usedBlocks == usedBlocks
      ensures ram[..] == Zeros(memorySize)
    {
      memorySize := RamNBlocks * RamBlockSize;
      blockSize := RamBlockSize;
      memoryBlocks := RamNBlocks;
      this.usedBlocks := usedBlocks;
      ram := new uint8[RamNBlocks * RamBlockSize](_ => 0);
      new;
      assert ram[..] == Zeros(memorySize);
    }

    method ReadData(data: array<uint8>, address: uint32, numBytes: uint32) returns (n: uint32)
      requires Valid() && data != ram
      requires address <= memorySize
      requires Clamp(numBytes, memorySize, address) <= data.Length
      modifies data
      ensures n == Clamp(numBytes, memorySize, address)
      ensures data[..n] == ram[address..address + n]
      ensures data[n..] == old(data[n..])
    {
      n := if numBytes > memorySize - address then memorySize - address else numBytes;
      forall k | 0 <= k < n {
        data[k] := ram[address + k];
      }
    }

    method WriteData(data: seq<uint8>, address: uint32, numBytes: uint32) returns (n: uint32)
      requires Valid()
      requires address <= memorySize
      requires Clamp(numBytes, memorySize, address) <= |data|
      modifies ram
      ensures n == Clamp(numBytes, memorySize, address)
      ensures ram[..] == Overwrite(old(ram[..]), address, data[..n])
    {
      n := if numBytes > memorySize - address then memorySize - address else numBytes;
      forall k | 0 <= k < n {
        ram[address + k] := data[k];
      }
      assert ram[..] == Overwrite(old(ram[..]), address, data[..n]) by {
        var w := Overwrite(old(ram[..]), address, data[..n]);
        forall k | 0 <= k < ram.Length ensures ram[k] == w[k] {
          if address <= k < address + n {
            assert w[k] == w[address..address + n][k - address];
          }
        }
      }
    }

    method EraseData(address: uint32, numBytes: uint32) returns (n: uint32)
      requires Valid()
      requires address <= memorySize
      modifies ram
      ensures n == Clamp(numBytes, memorySize, address)
      ensures ram[..] == Overwrite(old(ram[..]), address, Zeros(n))
    {
      n := if numBytes > memorySize - address then memorySize - address else numBytes;
      forall k | 0 <= k < n {
        ram[address + k] := 0;
      }
      assert ram[..] == Overwrite(old(ram[..]), address, Zeros(n)) by {
        var w := Overwrite(old(ram[..]), address, Zeros(n));
        forall k | 0 <= k < ram.Length ensures ram[k] == w[k] {
          if address <= k < address + n {
            assert w[k] == w[address..address + n][k - address];
          }
        }
      }
    }

    function AvailableSampleBlocks(): (blocks: uint32)
      requires Valid()
      ensures blocks + usedBlocks == memoryBlocks
    {
      memoryBlocks - usedBlocks
    }

    function AvailableSampleBytes(): (bytes: uint32)
      requires Valid()
      ensures bytes == AvailableSampleBlocks() * blockSize
      ensures UsedBytes() + bytes == memorySize
    {
      (memoryBlocks - usedBlocks) * blockSize
    }

    /** Erases the whole configuration region, then writes the configuration at address 0.
        Both raw operations are checked for a full-length transfer. */
    method SaveConfig(config: seq<uint8>, configSize: uint32) returns (ok: bool)
      requires Valid()
      requires Clamp(configSize, memorySize, 0) <= |config|
      modifies ram
      ensures ok <==> configSize <= memorySize
      ensures ram[..] == Overwrite(Overwrite(old(ram[..]), 0, Zeros(UsedBytes())),
                                   0, config[..Clamp(configSize, memorySize, 0)])
      ensures ok && configSize <= UsedBytes() ==>
                && ram[..configSize] == config[..configSize]
                && ram[configSize..UsedBytes()] == Zeros(UsedBytes() - configSize)
                && ram[UsedBytes()..] == old(ram[UsedBytes()..])
    {
      var usedBytes := usedBlocks * blockSize;
      var erased := EraseData(0, usedBytes);
      if erased != usedBytes {
        assert false;
      }
      var written := WriteData(config, 0, configSize);
      if written != configSize {
        return false;
      }
      ok := true;
      if configSize <= usedBytes {
        ConfigImage(old(ram[..]), usedBytes, config[..configSize]);
      }
    }

    /** Reads the configuration back from address 0; fails unless the whole request fits. */
    method LoadConfig(config: array<uint8>, configSize: uint32) returns (ok: bool)
      requires Valid() && config != ram
      requires Clamp(configSize, memorySize, 0) <= config.Length
      modifies config
      ensures ok <==> configSize <= memorySize
      ensures ok ==> config[..configSize] == ram[..configSize]
      ensures config[Clamp(configSize, memorySize, 0)..] ==
              old(config[Clamp(configSize, memorySize, 0)..])
    {
      var n := ReadData(config, 0, configSize);
      ok := n == configSize;
    }

    /** A write followed by a read of the same range: the read returns what the write
        transferred, with the same clamped length. */
    method ReadAfterWrite(data: seq<uint8>, address: uint32, numBytes: uint32,
                          dest: array<uint8>) returns (n: uint32)
      requires Valid() && dest != ram && address <= memorySize
      requires Clamp(numBytes, memorySize, address) <= |data|
      requires Clamp(numBytes, memorySize, address) <= dest.Length
      modifies ram, dest
      ensures n == Clamp(numBytes, memorySize, address)
      ensures dest[..n] == data[..n]
      ensures ram[..] == Overwrite(old(ram[..]), address, data[..n])
    {
      var written := WriteData(data, address, numBytes);
      n := ReadData(dest, address, numBytes);
    }

    /** `save_config` followed by `load_config` of the same size: both succeed exactly when
        the configuration fits in memory, and then the configuration comes back. */
    method LoadAfterSave(config: seq<uint8>, configSize: uint32, dest: array<uint8>)
      returns (saved: bool, loaded: bool)
      requires Valid() && dest != ram
      requires Clamp(configSize, memorySize, 0) <= |config|
      requires Clamp(configSize, memorySize, 0) <= dest.Length
      modifies ram, dest
      ensures saved == loaded && (loaded <==> configSize <= memorySize)
      ensures loaded ==> dest[..configSize] == config[..configSize]
    {
      saved := SaveConfig(config, configSize);
      loaded := LoadConfig(dest, configSize);
    }

    method ReadSampleData(data: array<uint8>, address: uint32, sampleDataSize: uint32)
      returns (n: uint32)
      requires Valid() && data != ram
      requires UsedBytes() + address <= memorySize
      requires Clamp(sampleDataSize, memorySize, UsedBytes() + address) <= data.Length
      modifies data
      ensures n == Clamp(sampleDataSize, memorySize, UsedBytes() + address)
      ensures data[..n] == ram[UsedBytes() + address..UsedBytes() + address + n]
      ensures data[n..] == old(data[n..])
    {
      var offset := usedBlocks * blockSize;
      n := ReadData(data, offset + address, sampleDataSize);
    }

    method WriteSampleData(sampleData: seq<uint8>, address: uint32, sampleDataSize: uint32)
      returns (n: uint32)
      requires Valid()
      requires UsedBytes() + address <= memorySize
      requires Clamp(sampleDataSize, memorySize, UsedBytes() + address) <= |sampleData|
      modifies ram
      ensures n == Clamp(sampleDataSize, memorySize, UsedBytes() + address)
      ensures ram[..] == Overwrite(old(ram[..]), UsedBytes() + address, sampleData[..n])
      ensures ram[..UsedBytes()] == old(ram[..UsedBytes()])
    {
      var offset := usedBlocks * blockSize;
      n := WriteData(sampleData, offset + address, sampleDataSize);
    }

    method EraseSampleData(address: uint32, numBytes: uint32) returns (n: uint32)
      requires Valid()
      requires UsedBytes() + address <= memorySize
      modifies ram
      ensures n == Clamp(numBytes, memorySize, UsedBytes() + address)
      ensures ram[..] == Overwrite(old(ram[..]), UsedBytes() + address, Zeros(n))
      ensures ram[..UsedBytes()] == old(ram[..UsedBytes()])
    {
      var offset := usedBlocks * blockSize;
      n := EraseData(offset + address, numBytes);
    }
  }
}
