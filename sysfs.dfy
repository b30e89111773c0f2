/**
 * The attribute reads of update_info (sysfs_file_exists, sysfs_get_int,
 * sysfs_get_uint64) and the 64-bit unsigned arithmetic it does with them.
 * A device's sysfs directory is given as a map from the names of the
 * attribute files present to the number atoi or atoll reads from each.
 */
module Sysfs {

  const TwoTo31: int := 0x8000_0000
  const TwoTo32: int := 0x1_0000_0000
  const TwoTo64: int := 0x1_0000_0000_0000_0000

  /** guint64 */
  type U64 = x: int | 0 <= x < 0x1_0000_0000_0000_0000

  /** The C conversion of an integer to guint64 (reduction modulo 2^64;
      Dafny's % is never negative, as that conversion requires). */
  function ToU64(x: int): U64 {
    x % TwoTo64
  }

  /** Multiplication of two guint64 values. */
  function MulU64(a: U64, b: U64): U64 {
    (a * b) % TwoTo64
  }

  /** The conversion of a guint64 to a 32-bit int as GCC does it: the low
      32 bits, read as two's complement. */
  function ToInt32(x: U64): (r: int)
    ensures -TwoTo31 <= r < TwoTo31
    ensures r % TwoTo32 == x % TwoTo32
  {
    var low := x % TwoTo32;
    if low < TwoTo31 then low else low - TwoTo32
  }

  type Attributes = map<string, int>

  /** sysfs_file_exists */
  predicate FileExists(attrs: Attributes, name: string) {
    name in attrs
  }

  /** sysfs_get_int: the number read from the file, 0 when it is absent. */
  function GetInt(attrs: Attributes, name: string): (r: int)
    ensures FileExists(attrs, name) ==> r == attrs[name]
    ensures !FileExists(attrs, name) ==> r == 0
  {
    if name in attrs then attrs[name] else 0
  }

  /** sysfs_get_uint64 as its name says it should be: the guint64 read from
      the file, 0 when it is absent. */
  function GetUint64(attrs: Attributes, name: string): (r: U64)
    ensures name in attrs && 0 <= attrs[name] < TwoTo64 ==> r == attrs[name]
    ensures name !in attrs ==> r == 0
  {
    ToU64(GetInt(attrs, name))
  }

  /** sysfs_get_uint64 as written: it computes a guint64 but is declared to
      return int, so only the low 32 bits survive, as a signed number. */
  function GetUint64AsWritten(attrs: Attributes, name: string): (r: int)
    ensures -TwoTo31 <= r < TwoTo31
    ensures r % TwoTo32 == GetUint64(attrs, name) % TwoTo32
  {
    ToInt32(GetUint64(attrs, name))
  }

  /** The block size update_info records for every device. */
  const BlockSize: U64 := 512

  /** A count of 512-byte sectors in bytes, as a guint64 product. */
  function SectorsToBytes(sectors: U64): (bytes: U64)
    ensures sectors < 0x80_0000_0000_0000 ==> bytes == sectors * 512
  {
    MulU64(sectors, BlockSize)
  }

  /** The byte count update_info computes as written: the int returned by
      sysfs_get_uint64 is converted back to guint64 before the product. */
  function AttributeBytesAsWritten(attrs: Attributes, name: string): U64 {
    SectorsToBytes(ToU64(GetUint64AsWritten(attrs, name)))
  }

  /** The byte count of a sector-count attribute, read as a guint64. */
  function AttributeBytes(attrs: Attributes, name: string): (bytes: U64)
    ensures name !in attrs ==> bytes == 0
    ensures name in attrs && 0 <= attrs[name] < 0x80_0000_0000_0000 ==> bytes == attrs[name] * 512
  {
    SectorsToBytes(GetUint64(attrs, name))
  }

  /** Below 2^31 sectors (1 TiB) the two readings agree. */
  lemma AsWrittenAgreesBelowTwoTo31(attrs: Attributes, name: string)
    requires name in attrs ==> 0 <= attrs[name] < TwoTo31
    ensures AttributeBytesAsWritten(attrs, name) == AttributeBytes(attrs, name)
  {
  }

  /** A 1 TiB disk (2^31 sectors): as written, its size comes out as
      2^64 - 2^40 bytes instead of 2^40. */
  lemma SizeTruncationExample()
    ensures AttributeBytesAsWritten(map["size" := 0x8000_0000], "size") == 0xFFFF_FF00_0000_0000
    ensures AttributeBytes(map["size" := 0x8000_0000], "size") == 0x100_0000_0000
  {
    var attrs := map["size" := 0x8000_0000];
    assert GetUint64(attrs, "size") == 0x8000_0000;
    assert GetUint64AsWritten(attrs, "size") == -0x8000_0000;
    assert ToU64(-0x8000_0000) == 0xFFFF_FFFF_8000_0000;
  }
}
