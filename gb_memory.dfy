/** The flat 64 KiB address space (`GbMemory`). `Mem` is its value, `GbMemory` the
    mutable struct holding the byte array. */
module Memory {
  import opened Bytes

  /** The number of cells `main` builds (`[0u8; 0x0FFFF + 1]`). */
  const MemorySize := 0x10000

  /** The length the struct declares for `memory_array`. */
  const DeclaredLength := 0xFFFF

  type Mem = s: seq<u8> | |s| == MemorySize witness seq(MemorySize, _ => 0)

  /** `read_byte`: the cell at the address. */
  function Read(mem: Mem, address: u16): u8
  {
    mem[address]
  }

  /** `write_byte`: the memory after storing one byte. */
  function Write(mem: Mem, address: u16, value: u8): (r: Mem)
    ensures Read(r, address) == value
    ensures forall other: u16 :: other != address ==> Read(r, other) == Read(mem, other)
  {
    mem[address := value]
  }

  /** An index into an array of the given length is in bounds. */
  predicate Indexable(length: nat, address: u16)
  {
    address < length
  }

  /** Every 16-bit address indexes the array exactly when it holds at least 0x10000 cells;
      with the declared length 0xFFFF the address 0xFFFF would be out of bounds. */
  lemma EveryAddressIndexable(length: nat)
    ensures (forall address: u16 :: Indexable(length, address)) <==> length >= MemorySize
    ensures !Indexable(DeclaredLength, 0xFFFF)
  {
    if length < MemorySize {
      assert !Indexable(length, 0xFFFF);
    }
  }

  /** `contents.resize(0xFFFF + 1, 0u8)` in `read_rom`: the image cut or zero-padded to
      the size of memory. */
  function Resized(contents: seq<u8>): (r: Mem)
    ensures forall i :: 0 <= i < MemorySize ==> r[i] == if i < |contents| then contents[i] else 0
  {
    if |contents| >= MemorySize then contents[..MemorySize]
    else contents + seq(MemorySize - |contents|, _ => 0)
  }

  class GbMemory {
    const memoryArray: array<u8>

    predicate Valid()
    {
      memoryArray.Length == MemorySize
    }

    function Value(): Mem
      reads memoryArray
      requires Valid()
    {
      memoryArray[..]
    }

    /** `[0u8; 0x0FFFF + 1]`. */
    constructor ()
      ensures Valid() && fresh(memoryArray)
      ensures Value() == seq(MemorySize, _ => 0)
    {
      memoryArray := new u8[MemorySize](_ => 0);
    }

    function ReadByte(address: u16): (r: u8)
      reads memoryArray
      requires Valid()
      ensures r == Read(Value(), address)
    {
      memoryArray[address]
    }

    method WriteByte(address: u16, value: u8)
      requires Valid()
      modifies memoryArray
      ensures Value() == Write(old(Value()), address, value)
    {
      memoryArray[address] := value;
    }

    /** `read_rom`'s final `copy_from_slice` of the resized image. */
    method CopyFromImage(contents: seq<u8>)
      requires Valid()
      modifies memoryArray
      ensures Value() == Resized(contents)
    {
      var image := Resized(contents);
      forall i | 0 <= i < MemorySize {
        memoryArray[i] := image[i];
      }
    }
  }
}
